/** The operations of the adaptive engine, each told exactly and in terms of what a run has shown
    so far: which segments are in flight, how often they have been resent, what has arrived. */
module AdaptiveExactness {
  import opened WindowPolicy
  import C = CubicWindow
  import opened AdaptiveSpec
  import opened Network
  import opened Optional
  import opened AdaptiveInvariant
  import opened AdaptiveTheorems
  import opened Counting

  // ------------------------------------------------------------------ retransmission timers

  /** The listed segments that have an Interest in flight. */
  ghost function Overdue(s: Engine, expired: seq<nat>): set<nat> {
    set k | k in InFlight(s.segmentInfo) && k in expired
  }

  /** The queue has gained these segments, each once, at its end. */
  ghost predicate QueueGains(s: Engine, r: Engine, gained: set<nat>) {
    && s.retxQueue <= r.retxQueue
    && Distinct(r.retxQueue[|s.retxQueue|..])
    && forall k :: k in r.retxQueue[|s.retxQueue|..] <==> k in gained
  }

  /** These segments have been queued, and no other has changed. */
  ghost predicate Requeued(s: Engine, r: Engine, due: set<nat>) {
    && r.segmentInfo.Keys == s.segmentInfo.Keys
    && (forall k :: k in s.segmentInfo ==>
          r.segmentInfo[k] == if k in due then InRetxQueue else s.segmentInfo[k])
    && QueueGains(s, r, due)
  }

  /** The check of the timers queues every listed segment that is in flight, first requests and
      retransmissions alike, touches no other, and counts just these. */
  lemma {:induction false} TimersExactly(s: Engine, expired: seq<nat>)
    ensures Requeued(s, ExpireTimers(s, expired), Overdue(s, expired))
    ensures CountExpired(s, expired) == |Overdue(s, expired)|
    decreases |expired|
  {
    hide InFlight, Requeued, Overdue;
    if expired == [] {
      NoneListed(s);
    } else if TimerRuns(s, expired[0]) {
      var k, s1 := expired[0], Enqueue(s, expired[0]);
      TimersExactly(s1, expired[1..]);
      OneOverdue(s, expired);
      OneMoreRequeued(s, ExpireTimers(s, expired), k, Overdue(s1, expired[1..]));
      Without(Overdue(s, expired), k);
      assert Overdue(s, expired) - {k} + {k} == Overdue(s, expired);
    } else {
      TimersExactly(s, expired[1..]);
      NotOverdue(s, expired);
    }
  }

  lemma NoneListed(s: Engine)
    ensures Overdue(s, []) == {} && Requeued(s, s, {})
  {
  }

  lemma NotOverdue(s: Engine, expired: seq<nat>)
    requires expired != [] && !TimerRuns(s, expired[0])
    ensures Overdue(s, expired) == Overdue(s, expired[1..])
  {
    assert expired == [expired[0]] + expired[1..];
  }

  lemma OneMoreRequeued(s: Engine, r: Engine, k: nat, due: set<nat>)
    requires TimerRuns(s, k) && Requeued(Enqueue(s, k), r, due) && k !in due
    ensures Requeued(s, r, due + {k})
  {
    hide QueueGains;
    QueueGrows(s, Enqueue(s, k), r, k, due);
    assert Enqueue(s, k).segmentInfo.Keys == s.segmentInfo.Keys;
  }

  lemma OneOverdue(s: Engine, expired: seq<nat>)
    requires expired != [] && TimerRuns(s, expired[0])
    ensures expired[0] in Overdue(s, expired)
    ensures Overdue(Enqueue(s, expired[0]), expired[1..]) == Overdue(s, expired) - {expired[0]}
  {
    assert expired == [expired[0]] + expired[1..];
  }

  lemma QueueGrows(s: Engine, s1: Engine, r: Engine, k: nat, gained: set<nat>)
    requires s1.retxQueue == s.retxQueue + [k] && QueueGains(s1, r, gained) && k !in gained
    ensures QueueGains(s, r, gained + {k})
  {
    var n := |s.retxQueue|;
    var more := r.retxQueue[n + 1..];
    assert r.retxQueue[n] == s1.retxQueue[n] == k;
    assert r.retxQueue[n..] == [k] + more;
    assert r.retxQueue[..n] == s1.retxQueue[..n] == s.retxQueue;
  }

  // ------------------------------------------------------------------ what the marks mean

  /** The states tell which tracked segments have been resent; no attempt is counted as none. */
  ghost predicate Marked(s: Engine) {
    && (forall k :: k in s.segmentInfo && s.segmentInfo[k] == FirstTimeSent ==> k !in s.log.resent)
    && (forall k :: k in s.segmentInfo && s.segmentInfo[k] in {Retransmitted, RetxReceived} ==> k in s.log.resent)
    && (forall k :: k in s.retxCount ==> s.retxCount[k] >= 1)
  }

  /** `highData` is the highest segment that has arrived. */
  ghost predicate Newest(s: Engine) {
    && (s.highData == 0 || s.highData in s.log.arrivals)
    && forall k :: k in s.log.arrivals ==> k <= s.highData
  }

  /** Forgetting segments keeps the marks of the others. */
  lemma FewerMarked(s: Engine, r: Engine)
    requires Marked(s) && r.log.resent == s.log.resent && r.retxCount == s.retxCount
    requires forall k :: k in r.segmentInfo ==> k in s.segmentInfo && r.segmentInfo[k] == s.segmentInfo[k]
    ensures Marked(r)
  {
  }

  lemma SendNextMarked(w: Setting, s: Engine)
    requires Requested(w, s) && Retried(w, s, {}) && Marked(s)
    ensures Marked(SendNext(w.c, s))
  {
    NextIsNew(w, s);
    hide Increasing, Count;
  }

  lemma FailMarked(s: Engine, segNo: nat)
    requires Marked(s)
    ensures Marked(HandleFail(s, segNo))
  {
    hide Marked;
    FewerMarked(s, HandleFail(s, segNo));
  }

  lemma ResendMarked(c: Config, s: Engine, segNo: nat)
    requires Marked(s)
    ensures Marked(Resend(c, s, segNo))
  {
    var s1 := s.(retxCount := s.retxCount[segNo := Attempt(s, segNo)]);
    if !MayRetry(c, s, segNo) {
      FailMarked(s1, segNo);
    }
    hide HandleFail;
  }

  lemma {:induction false} ScheduleMarked(w: Setting, s: Engine, available: int)
    requires Inv(w, s) && Marked(s)
    ensures Marked(ScheduleLoop(w.c, s, available))
    decreases if available > 0 then available else 0, |s.retxQueue|
  {
    hide Requested, Queued, Delivered, Accounted, Failing, Covered, Retried, Adapted, Complete, Marked;
    if available <= 0 {
    } else if s.retxQueue != [] {
      var segNo := s.retxQueue[0];
      var s1 := s.(retxQueue := s.retxQueue[1..]);
      PopKeeps(w, s);
      FewerMarked(s, s1);
      if segNo !in s.segmentInfo {
        ScheduleMarked(w, s1, available);
      } else {
        ResendKeeps(w, s1, segNo);
        ResendMarked(w.c, s1, segNo);
        ScheduleMarked(w, Resend(w.c, s1, segNo), available - 1);
      }
    } else {
      SendNextKeeps(w, s);
      SendNextMarked(w, s);
      ScheduleMarked(w, SendNext(w.c, s), available - 1);
    }
  }

  lemma TimeoutMarked(w: Setting, s: Engine, timeoutCount: nat)
    requires Sound(w) && w.c.Fits(s.window) && Marked(s)
    requires InvWith(w, s, {}, timeoutCount) && (timeoutCount > 0 ==> s.log.requests != [])
    ensures Marked(HandleTimeout(w.c, s, timeoutCount))
  {
    hide Requested, Queued, Delivered, Accounted, Failing, Covered, Retried, Adapted, Complete, Marked;
    hide DecreaseWindow, ScheduleLoop;
    if timeoutCount > 0 {
      LossEventAdapted(w, s);
      SettleKeeps(w, s, timeoutCount);
      var s1 := ReactToLoss(w.c, s);
      var s2 := s1.(nInFlight := Minus(s1.nInFlight, timeoutCount));
      FewerMarked(s, s2);
      ScheduleMarked(w, s2, AvailableWindow(s2));
    }
  }

  lemma EnqueueMarked(s: Engine, segNo: nat)
    requires Marked(s)
    ensures Marked(Enqueue(s, segNo))
  {
  }

  lemma {:induction false} ExpireMarked(s: Engine, expired: seq<nat>)
    requires Marked(s)
    ensures Marked(ExpireTimers(s, expired))
    decreases |expired|
  {
    hide Marked;
    if expired != [] {
      EnqueueMarked(s, expired[0]);
      ExpireMarked(if TimerRuns(s, expired[0]) then Enqueue(s, expired[0]) else s, expired[1..]);
    }
  }

  lemma RequeueMarked(w: Setting, s: Engine, segNo: nat)
    requires Sound(w) && w.c.Fits(s.window) && Inv(w, s) && Marked(s)
    requires segNo in InFlight(s.segmentInfo)
    ensures Marked(HandleTimeout(w.c, Enqueue(s, segNo), 1))
  {
    assert segNo in s.log.requests;
    EnqueueKeeps(w, s, segNo, 0);
    EnqueueMarked(s, segNo);
    hide Inv, InvWith, Marked, HandleTimeout;
    TimeoutMarked(w, Enqueue(s, segNo), 1);
  }

  lemma CheckRtoMarked(w: Setting, s: Engine, expired: seq<nat>)
    requires Sound(w) && w.c.Fits(s.window) && Inv(w, s) && Marked(s)
    ensures Marked(CheckRto(w.c, s, expired))
  {
    hide InvWith, Marked, HandleTimeout, ExpireTimers, CountExpired;
    if !s.IsStopping() {
      ExpireTimersKeeps(w, s, expired, 0);
      ExpireMarked(s, expired);
      ExpiredWasRequested(w, s, expired);
      TimeoutMarked(w, ExpireTimers(s, expired), CountExpired(s, expired));
    }
  }

  lemma ExpiredWasRequested(w: Setting, s: Engine, expired: seq<nat>)
    requires Inv(w, s)
    ensures CountExpired(s, expired) > 0 ==> s.log.requests != []
  {
    hide Requested, Delivered, Accounted, Failing, Covered, Retried, Adapted, Complete, Distinct;
    if CountExpired(s, expired) > 0 {
      ExpiredWasTracked(s, expired);
      var k :| k in s.segmentInfo;
      assert k in s.log.requests;
    }
  }

  lemma AcceptMarked(w: Setting, s: Engine, segNo: nat, g: C.Growth)
    requires Acceptable(w, s, segNo) && Inv(w, s) && Marked(s)
    ensures Marked(Accept(w.c, s, segNo, g))
  {
    var s1 := Book(w.c, s, segNo, g);
    BookMarked(w.c, s, segNo, g);
    hide Requested, Queued, Delivered, Accounted, Failing, Covered, Retried, Adapted, Complete, Marked, IncreaseWindow, Book;
    if s1.hasFinalBlockId && s1.nReceived - 1 >= s1.lastSegmentNo {
      FewerMarked(s1, Cancel(s1, Succeeded));
    } else {
      BookKeeps(w, s, segNo, g);
      ScheduleMarked(w, s1, AvailableWindow(s1));
    }
  }

  lemma BookMarked(c: Config, s: Engine, segNo: nat, g: C.Growth)
    requires segNo in s.segmentInfo && s.segmentInfo[segNo] != RetxReceived && c.Fits(s.window)
    requires Marked(s)
    ensures Marked(Book(c, s, segNo, g))
  {
    hide IncreaseWindow;
  }

  lemma ReceiveMarked(w: Setting, s: Engine, segNo: nat, g: C.Growth)
    requires Sound(w) && Inv(w, s) && w.c.Fits(s.window) && s.outcome == Running && Marked(s)
    requires segNo in s.log.requests && segNo <= w.content
    requires w.c.options.Guarded() || segNo in s.segmentInfo
    ensures Marked(Receive(w.c, s, segNo, g))
  {
    hide Inv, Marked, Accept;
    var s1 := RaiseHighData(s, segNo);
    RaiseKeeps(w, s, segNo);
    FewerMarked(s, s1);
    if segNo !in s1.segmentInfo {
    } else if s1.segmentInfo[segNo] == RetxReceived {
      FewerMarked(s1, s1.(segmentInfo := s1.segmentInfo - {segNo}));
    } else {
      AcceptMarked(w, s1, segNo, g);
    }
  }

  lemma DataMarked(w: Setting, s: Engine, segNo: nat, final: Option<nat>, g: C.Growth)
    requires Sound(w) && Inv(w, s) && w.c.Fits(s.window) && Marked(s)
    requires Allowed(w, s, DataArrives(segNo, final, g))
    ensures Marked(HandleData(w.c, s, segNo, final, g))
  {
    hide Inv, Marked, Receive;
    if s.IsStopping() {
    } else if !s.hasFinalBlockId && final.Some? {
      var s1 := LearnFinalBlockId(s, w.content);
      LearnKeeps(w, s);
      FewerMarked(s, s1);
      if !s1.IsStopping() {
        ReceiveMarked(w, s1, segNo, g);
      }
    } else {
      ReceiveMarked(w, s, segNo, g);
    }
  }

  lemma StepMarked(w: Setting, s: Engine, e: Event)
    requires Sound(w) && w.c.Fits(s.window) && Inv(w, s) && Marked(s) && Allowed(w, s, e)
    ensures Marked(Step(w.c, s, e))
  {
    hide Marked, Inv, HandleData, CheckRto, HandleTimeout, HandleFail;
    match e
    case DataArrives(segNo, final, g) =>
      DataMarked(w, s, segNo, final, g);
    case NackArrives(segNo, reason) =>
      if !s.IsStopping() && reason == Congestion {
        RequeueMarked(w, s, segNo);
      } else if !s.IsStopping() && reason == OtherReason {
        FailMarked(s, segNo);
      }
    case LifetimeExpires(segNo) =>
      if !s.IsStopping() {
        RequeueMarked(w, s, segNo);
      }
    case RtoTick(expired) =>
      CheckRtoMarked(w, s, expired);
  }

  lemma TimeoutNewest(c: Config, s: Engine, timeoutCount: nat)
    requires c.Fits(s.window) && Newest(s)
    ensures Newest(HandleTimeout(c, s, timeoutCount))
  {
    hide ScheduleLoop, DecreaseWindow;
  }

  lemma StepNewest(c: Config, s: Engine, e: Event)
    requires c.Fits(s.window) && Newest(s)
    ensures Newest(Step(c, s, e))
  {
    hide Receive, HandleTimeout, ExpireTimers, CountExpired;
    match e
    case DataArrives(segNo, final, g) =>
      if !s.IsStopping() {
        var s1 := if !s.hasFinalBlockId && final.Some? then LearnFinalBlockId(s, final.value) else s;
        ReceiveNewest(c, s1, segNo, g);
      }
    case NackArrives(segNo, reason) =>
      TimeoutNewest(c, Enqueue(s, segNo), 1);
    case LifetimeExpires(segNo) =>
      TimeoutNewest(c, Enqueue(s, segNo), 1);
    case RtoTick(expired) =>
      TimeoutNewest(c, ExpireTimers(s, expired), CountExpired(s, expired));
  }

  lemma ReceiveNewest(c: Config, s: Engine, segNo: nat, g: C.Growth)
    requires c.Fits(s.window) && Newest(s)
    ensures Newest(Receive(c, s, segNo, g))
  {
    hide Accept;
    var s1 := RaiseHighData(s, segNo);
    if segNo in s1.segmentInfo && s1.segmentInfo[segNo] != RetxReceived {
      AcceptLogs(c, s1, segNo, g);
    } else {
      AcceptLogs(c, Subscripted(s1, segNo), segNo, g);
    }
  }

  // ------------------------------------------------------------------ reached states

  /** A state that some run on an allowed network reaches. */
  ghost predicate Reached(w: Setting, s: Engine): (reached: bool)
    ensures reached ==> w.c.Fits(s.window)
  {
    exists finalBlockId: Option<nat>, events: seq<Event> :: Reaches(w, finalBlockId, events, s)
  }

  ghost predicate Reaches(w: Setting, finalBlockId: Option<nat>, events: seq<Event>, s: Engine) {
    && Opens(w, finalBlockId) && AllowedRun(w, Start(w.c, finalBlockId), events)
    && s == Run(w.c, Start(w.c, finalBlockId), events)
  }

  ghost predicate Kept(w: Setting, s: Engine) {
    Sound(w) && w.c.Fits(s.window) && Inv(w, s) && Marked(s) && Newest(s)
  }

  lemma {:induction false} RunKept(w: Setting, s: Engine, events: seq<Event>)
    requires Kept(w, s) && AllowedRun(w, s, events)
    ensures Kept(w, Run(w.c, s, events))
    decreases |events|
  {
    hide Inv, Marked, Newest, Allowed, Step;
    if events != [] {
      StepKeeps(w, s, events[0]);
      StepMarked(w, s, events[0]);
      StepNewest(w.c, s, events[0]);
      RunKept(w, Step(w.c, s, events[0]), events[1..]);
    }
  }

  lemma ReachedKept(w: Setting, s: Engine)
    requires Reached(w, s)
    ensures Kept(w, s)
  {
    var finalBlockId, events :| Reaches(w, finalBlockId, events, s);
    StartKeeps(w, finalBlockId);
    StartMarked(w, finalBlockId);
    hide Inv, Marked, Newest, Allowed, Step, Start;
    RunKept(w, Start(w.c, finalBlockId), events);
  }

  lemma KeptFailing(w: Setting, s: Engine)
    requires Kept(w, s)
    ensures Failing(w, s) && Retried(w, s, {}) && Marked(s)
  {
    hide Requested, Queued, Delivered, Accounted, Failing, Covered, Retried, Adapted, Complete, Marked, Newest;
  }

  lemma StartMarked(w: Setting, finalBlockId: Option<nat>)
    requires Opens(w, finalBlockId)
    ensures Marked(Start(w.c, finalBlockId)) && Newest(Start(w.c, finalBlockId))
  {
  }

  // ------------------------------------------------------------------ giving up

  /** What is left after segments have been forgotten, a unit in flight given back for each. */
  ghost predicate Forgot(s: Engine, r: Engine, gone: set<nat>) {
    && r.segmentInfo == s.segmentInfo - gone
    && r.nInFlight == Minus(s.nInFlight, |s.segmentInfo.Keys| - |r.segmentInfo.Keys|)
  }

  ghost function From(info: map<nat, SegmentState>, segNo: nat): set<nat> { set k | k in info && k >= segNo }

  /** A segment of the content that is given up ends the run.  While the end is unknown the run
      goes on with the segments before it, as long as there is another one. */
  ghost predicate GivenUp(s: Engine, segNo: nat, r: Engine) {
    && r.log == s.log.(failures := r.log.failures)
    && if s.hasFinalBlockId || s.segmentInfo.Keys == {segNo} then
         r.outcome == Failed && r.segmentInfo == map[] && r.log.failures == s.log.failures
       else
         && r.outcome == Running && Forgot(s, r, From(s.segmentInfo, segNo))
         && r.hasFailure && r.failedSegNo == segNo && r.log.failures == s.log.failures + [segNo]
  }

  lemma ForgottenUnits(info: map<nat, SegmentState>, gone: set<nat>)
    requires gone <= info.Keys
    ensures |info.Keys| - |(info - gone).Keys| == |gone|
  {
    assert (info - gone).Keys == info.Keys - gone;
  }

  lemma FailsExactly(w: Setting, s: Engine, segNo: nat)
    requires Failing(w, s) && s.outcome == Running && segNo in s.segmentInfo
    ensures GivenUp(s, segNo, HandleFail(s, segNo))
  {
    hide Decreasing, HandleFail, GivenUp;
    OnlyOneTracked(s.segmentInfo, segNo);
    if s.hasFinalBlockId || s.segmentInfo - {segNo} == map[] {
      FailureStops(s, segNo);
    } else {
      FailureForgets(s, segNo);
    }
  }

  lemma OnlyOneTracked(info: map<nat, SegmentState>, segNo: nat)
    requires segNo in info
    ensures info - {segNo} == map[] <==> info.Keys == {segNo}
  {
    var left := info - {segNo};
    assert left.Keys == info.Keys - {segNo};
    assert forall k :: k in info ==> k == segNo || k in left;
  }

  lemma FailureStops(s: Engine, segNo: nat)
    requires s.outcome == Running && segNo in s.segmentInfo
    requires if s.hasFinalBlockId then segNo <= s.lastSegmentNo else s.segmentInfo - {segNo} == map[]
    ensures GivenUp(s, segNo, HandleFail(s, segNo))
  {
    OnlyOneTracked(s.segmentInfo, segNo);
  }

  lemma FailedOrBeyond(info: map<nat, SegmentState>, segNo: nat)
    requires segNo in info
    ensures var beyond := set k | k in info - {segNo} && k > segNo;
            && From(info, segNo) == beyond + {segNo} && |beyond| == |From(info, segNo)| - 1
            && info - {segNo} - beyond == info - From(info, segNo)
            && |info.Keys| - |(info - From(info, segNo)).Keys| == |From(info, segNo)|
  {
    var beyond := set k | k in info - {segNo} && k > segNo;
    assert From(info, segNo) == beyond + {segNo};
    assert info - {segNo} - beyond == info - From(info, segNo);
    ForgottenUnits(info, From(info, segNo));
  }

  lemma FailureForgets(s: Engine, segNo: nat)
    requires s.outcome == Running && segNo in s.segmentInfo && !s.hasFinalBlockId
    requires s.segmentInfo - {segNo} != map[]
    ensures GivenUp(s, segNo, HandleFail(s, segNo))
  {
    hide From;
    OnlyOneTracked(s.segmentInfo, segNo);
    FailedOrBeyond(s.segmentInfo, segNo);
  }

  /** A Nack other than a duplicate or congestion one, for a segment in flight, gives it up. */
  lemma NackFailsExactly(w: Setting, s: Engine, segNo: nat)
    requires Reached(w, s) && s.outcome == Running && segNo in InFlight(s.segmentInfo)
    ensures GivenUp(s, segNo, Step(w.c, s, NackArrives(segNo, OtherReason)))
  {
    hide Reached, Kept, Failing, GivenUp, HandleFail, HandleTimeout, HandleData, CheckRto;
    ReachedKept(w, s);
    KeptFailing(w, s);
    FailsExactly(w, s, segNo);
  }

  /** The segment last in the content is learnt: the segments beyond it are forgotten, no others. */
  lemma LearnsExactly(s: Engine, last: nat)
    requires s.outcome == Running
    ensures var r := LearnFinalBlockId(s, last);
            && r.hasFinalBlockId && r.lastSegmentNo == last && r.log == s.log
            && (r.outcome == Failed <==> s.hasFailure && s.failedSegNo <= last)
            && (r.outcome != Failed ==>
                  r.outcome == Running && !r.hasFailure && Forgot(s, r, set k | k in s.segmentInfo && k > last))
  {
    ForgottenUnits(s.segmentInfo, set k | k in s.segmentInfo && k > last);
  }

  // ------------------------------------------------------------------ retransmission

  lemma RetriesExactly(w: Setting, s: Engine, segNo: nat)
    requires Retried(w, s, {}) && Marked(s) && segNo in s.segmentInfo
    ensures MayRetry(w.c, s, segNo) <==> Count(s.log.resent, segNo) < RetryLimit(w.c)
  {
    hide Count;
  }

  /** One more retransmission of a segment is in flight. */
  ghost predicate ResentOnce(s: Engine, segNo: nat, r: Engine) {
    && r.outcome == Running && r.log == s.log.(resent := s.log.resent + [segNo])
    && r.segmentInfo == s.segmentInfo[segNo := Retransmitted] && r.nInFlight == s.nInFlight + 1
    && SameRest(s, r)
  }

  /** States with the same queue and the same knowledge of the end. */
  ghost predicate SameRest(s: Engine, r: Engine) {
    && r.retxQueue == s.retxQueue && r.hasFailure == s.hasFailure && r.nextSegmentNo == s.nextSegmentNo
    && r.hasFinalBlockId == s.hasFinalBlockId && r.lastSegmentNo == s.lastSegmentNo
  }

  lemma RetriesOnce(c: Config, s: Engine, segNo: nat)
    requires s.outcome == Running && MayRetry(c, s, segNo)
    ensures ResentOnce(s, segNo, Resend(c, s, segNo))
  {
    hide HandleFail;
  }

  lemma GivesUp(w: Setting, s: Engine, segNo: nat)
    requires Failing(w, s) && s.outcome == Running && segNo in s.segmentInfo && !MayRetry(w.c, s, segNo)
    ensures GivenUp(s, segNo, Resend(w.c, s, segNo))
  {
    var s1 := s.(retxCount := s.retxCount[segNo := Attempt(s, segNo)]);
    SameFailing(w, s, s1);
    hide Failing, HandleFail;
    FailsExactly(w, s1, segNo);
  }

  /** The segment at the head of the queue is resent if and only if it has been resent less often
      than the limit allows; otherwise it is given up. */
  lemma ResendsExactly(w: Setting, s: Engine)
    requires Reached(w, s) && s.outcome == Running && s.retxQueue != [] && s.retxQueue[0] in s.segmentInfo
    ensures var segNo := s.retxQueue[0];
            var s1 := s.(retxQueue := s.retxQueue[1..]);
            if Count(s.log.resent, segNo) < RetryLimit(w.c) then ResentOnce(s1, segNo, Resend(w.c, s1, segNo))
            else GivenUp(s1, segNo, Resend(w.c, s1, segNo))
  {
    hide Reached, Kept, Failing, Retried, Marked, ResentOnce, GivenUp, Resend, Count;
    ReachedKept(w, s);
    KeptFailing(w, s);
    var segNo, s1 := s.retxQueue[0], s.(retxQueue := s.retxQueue[1..]);
    RetriesExactly(w, s, segNo);
    SameFailing(w, s, s1);
    if MayRetry(w.c, s1, segNo) {
      RetriesOnce(w.c, s1, segNo);
    } else {
      GivesUp(w, s1, segNo);
    }
  }

  lemma SameFailing(w: Setting, s: Engine, r: Engine)
    requires Failing(w, s) && r == s.(retxQueue := r.retxQueue, retxCount := r.retxCount)
    ensures Failing(w, r)
  {
    hide Decreasing;
  }

  // ------------------------------------------------------------------ use of the window

  /** The segments of the queue that are still tracked, in their order. */
  function Tracked(info: map<nat, SegmentState>, q: seq<nat>): seq<nat> {
    if q == [] then [] else (if q[0] in info then [q[0]] else []) + Tracked(info, q[1..])
  }

  /** No segment that waits for its retransmission has used them up. */
  ghost predicate Spare(w: Setting, s: Engine) {
    forall k :: k in s.retxQueue && k in s.segmentInfo ==> Count(s.log.resent, k) < RetryLimit(w.c)
  }

  predicate NothingToRequest(c: Config, s: Engine) {
    s.hasFailure || (s.hasFinalBlockId && NextSegment(c, s) > s.lastSegmentNo)
  }

  /** Segments from the front of the queue have been resent, in their order. */
  ghost predicate ResentInOrder(s: Engine, r: Engine) {
    |r.retxQueue| <= |s.retxQueue| &&
    var n := |s.retxQueue| - |r.retxQueue|;
    r.retxQueue == s.retxQueue[n..] && r.log.resent == s.log.resent + Tracked(s.segmentInfo, s.retxQueue[..n])
  }

  /** Units of window have been used: for queued segments first, in their order, then for new ones,
      one unit for each Interest, until no unit or nothing to send is left. */
  ghost predicate Scheduled(c: Config, s: Engine, r: Engine, available: int) {
    && r.outcome == Running && r.log.failures == s.log.failures
    && ResentInOrder(s, r)
    && (r.log.requests != s.log.requests ==> r.retxQueue == [])
    && r.nInFlight - s.nInFlight == |r.log.resent| - |s.log.resent| + |r.log.requests| - |s.log.requests|
    && (|| r.nInFlight - s.nInFlight == (if available > 0 then available else 0)
        || (r.retxQueue == [] && NothingToRequest(c, r)))
  }

  lemma {:induction false} TrackedByKeys(a: map<nat, SegmentState>, b: map<nat, SegmentState>, q: seq<nat>)
    requires a.Keys == b.Keys
    ensures Tracked(a, q) == Tracked(b, q)
  {
    if q != [] {
      assert q[0] in a.Keys <==> q[0] in b.Keys;
      TrackedByKeys(a, b, q[1..]);
    }
  }

  lemma TrackedFirst(info: map<nat, SegmentState>, q: seq<nat>, n: nat)
    requires 0 < n <= |q|
    ensures Tracked(info, q[..n]) == (if q[0] in info then [q[0]] else []) + Tracked(info, q[1..][..n - 1])
    ensures q[n..] == q[1..][n - 1..]
  {
    assert q[..n][0] == q[0] && q[..n][1..] == q[1..][..n - 1];
  }

  lemma Popped(s: Engine, s1: Engine, r: Engine)
    requires s.retxQueue != [] && s1.retxQueue == s.retxQueue[1..] && s1.segmentInfo.Keys == s.segmentInfo.Keys
    requires s1.log.resent == s.log.resent + if s.retxQueue[0] in s.segmentInfo then [s.retxQueue[0]] else []
    requires ResentInOrder(s1, r)
    ensures ResentInOrder(s, r)
  {
    var n := |s.retxQueue| - |r.retxQueue|;
    TrackedFirst(s.segmentInfo, s.retxQueue, n);
    TrackedByKeys(s.segmentInfo, s1.segmentInfo, s1.retxQueue[..n - 1]);
    hide Tracked;
  }

  lemma {:induction false} NothingLeft(c: Config, s: Engine, available: int)
    requires s.outcome == Running && s.retxQueue == [] && NothingToRequest(c, s)
    ensures var r := ScheduleLoop(c, s, available);
            r.outcome == Running && r.retxQueue == [] && NothingToRequest(c, r)
            && r.log == s.log && r.nInFlight == s.nInFlight
    decreases if available > 0 then available else 0
  {
    if available > 0 {
      NothingLeft(c, SendNext(c, s), available - 1);
    }
  }

  lemma NothingResent(s: Engine, r: Engine)
    requires r.retxQueue == s.retxQueue && r.log.resent == s.log.resent
    ensures ResentInOrder(s, r)
  {
    assert s.log.resent + [] == s.log.resent && s.retxQueue[..0] == [];
  }

  lemma NoneQueued(s: Engine, r: Engine)
    requires s.retxQueue == [] && ResentInOrder(s, r)
    ensures r.retxQueue == [] && r.log.resent == s.log.resent
  {
    assert s.retxQueue[..0] == [] && s.log.resent + [] == s.log.resent;
  }

  lemma RequestedNext(c: Config, s: Engine, r: Engine, available: int)
    requires available > 0 && s.outcome == Running && s.retxQueue == [] && !NothingToRequest(c, s)
    requires Scheduled(c, SendNext(c, s), r, available - 1) && SendNext(c, s).log.requests <= r.log.requests
    ensures Scheduled(c, s, r, available)
  {
    hide ResentInOrder;
    NoneQueued(SendNext(c, s), r);
    NothingResent(s, r);
  }

  lemma PoppedUntracked(c: Config, s: Engine, s1: Engine, r: Engine, available: int)
    requires s.retxQueue != [] && s.retxQueue[0] !in s.segmentInfo && s1 == s.(retxQueue := s.retxQueue[1..])
    requires Scheduled(c, s1, r, available)
    ensures Scheduled(c, s, r, available)
  {
    Popped(s, s1, r);
    hide ResentInOrder;
  }

  lemma PoppedResent(c: Config, s: Engine, s1: Engine, r: Engine, available: int)
    requires s.retxQueue != [] && s.retxQueue[0] in s.segmentInfo && available > 0
    requires ResentOnce(s.(retxQueue := s.retxQueue[1..]), s.retxQueue[0], s1)
    requires Scheduled(c, s1, r, available - 1)
    ensures Scheduled(c, s, r, available)
  {
    assert s1.segmentInfo.Keys == s.segmentInfo.Keys;
    Popped(s, s1, r);
    hide ResentInOrder;
  }

  lemma SpareAfter(w: Setting, s: Engine, s1: Engine)
    requires Spare(w, s) && Distinct(s.retxQueue) && s.retxQueue != [] && s1.retxQueue == s.retxQueue[1..]
    requires s1.segmentInfo.Keys == s.segmentInfo.Keys
    requires s1.log.resent == s.log.resent || s1.log.resent == s.log.resent + [s.retxQueue[0]]
    ensures Spare(w, s1)
  {
    assert s.retxQueue == [s.retxQueue[0]] + s1.retxQueue;
    forall k | k in s1.retxQueue && k in s1.segmentInfo
      ensures Count(s1.log.resent, k) < RetryLimit(w.c)
    {
      assert k in s.retxQueue && k != s.retxQueue[0];
      assert k in s.segmentInfo.Keys;
    }
  }

  /** As long as no queued segment has used up its retransmissions, nothing is given up, and the
      window is used as `Scheduled` says. */
  lemma {:induction false} SchedulesInOrder(w: Setting, s: Engine, available: int)
    requires Inv(w, s) && Marked(s) && s.outcome == Running && Spare(w, s)
    ensures Scheduled(w.c, s, ScheduleLoop(w.c, s, available), available)
    decreases if available > 0 then available else 0, |s.retxQueue|
  {
    hide Requested, Queued, Delivered, Accounted, Failing, Covered, Retried, Adapted, Complete;
    hide Marked, Spare, Scheduled, SendNext, Resend, ResentOnce, Distinct, Count;
    if available <= 0 {
      NoneScheduled(w.c, s, available);
    } else if s.retxQueue != [] {
      var segNo, s1 := s.retxQueue[0], s.(retxQueue := s.retxQueue[1..]);
      if segNo !in s.segmentInfo {
        HeadDropped(w, s);
        SchedulesInOrder(w, s1, available);
        PoppedUntracked(w.c, s, s1, ScheduleLoop(w.c, s1, available), available);
      } else {
        HeadResent(w, s);
        var s2 := Resend(w.c, s1, segNo);
        SchedulesInOrder(w, s2, available - 1);
        PoppedResent(w.c, s, s2, ScheduleLoop(w.c, s2, available - 1), available);
      }
    } else if NothingToRequest(w.c, s) {
      NothingLeft(w.c, s, available);
      NoneLeft(w.c, s, ScheduleLoop(w.c, s, available), available);
    } else {
      SendNextKeeps(w, s);
      SendNextMarked(w, s);
      SendNextRuns(w, s);
      var s1 := SendNext(w.c, s);
      SchedulesInOrder(w, s1, available - 1);
      RequestedNext(w.c, s, ScheduleLoop(w.c, s1, available - 1), available);
    }
  }

  /** The whole window is used: afterwards as many units are in flight as it holds, unless more were
      already, or nothing is left to send. */
  lemma FillsTheWindow(w: Setting, s: Engine)
    requires Inv(w, s) && Marked(s) && s.outcome == Running && Spare(w, s)
    ensures var r := SchedulePackets(w.c, s); var room := s.window.Cwnd().Floor;
            && Scheduled(w.c, s, r, room - s.nInFlight)
            && (|| r.nInFlight == (if s.nInFlight > room then s.nInFlight else room)
                || (r.retxQueue == [] && NothingToRequest(w.c, r)))
  {
    hide Inv, Marked, Spare, ScheduleLoop, ResentInOrder, NothingToRequest;
    SchedulesInOrder(w, s, AvailableWindow(s));
  }

  lemma SendNextRuns(w: Setting, s: Engine)
    requires s.outcome == Running && s.retxQueue == []
    ensures SendNext(w.c, s).outcome == Running && Spare(w, SendNext(w.c, s))
  {
  }

  lemma NoneScheduled(c: Config, s: Engine, available: int)
    requires available <= 0 && s.outcome == Running
    ensures Scheduled(c, s, s, available)
  {
    hide ResentInOrder;
    NothingResent(s, s);
  }

  lemma NoneLeft(c: Config, s: Engine, r: Engine, available: int)
    requires s.retxQueue == [] == r.retxQueue && r.outcome == Running && NothingToRequest(c, r)
    requires r.log == s.log && r.nInFlight == s.nInFlight
    ensures Scheduled(c, s, r, available)
  {
    hide ResentInOrder, NothingToRequest;
    NothingResent(s, r);
  }

  lemma HeadDropped(w: Setting, s: Engine)
    requires Inv(w, s) && Marked(s) && Spare(w, s) && s.retxQueue != [] && s.retxQueue[0] !in s.segmentInfo
    ensures var s1 := s.(retxQueue := s.retxQueue[1..]); Inv(w, s1) && Marked(s1) && Spare(w, s1)
  {
    var s1 := s.(retxQueue := s.retxQueue[1..]);
    PopKeeps(w, s);
    DistinctQueue(w, s);
    hide Inv, InvWith, Marked, Distinct, Count, Spare;
    FewerMarked(s, s1);
    SpareAfter(w, s, s1);
  }

  lemma DistinctQueue(w: Setting, s: Engine)
    requires Inv(w, s)
    ensures Distinct(s.retxQueue) && Retried(w, s, {})
  {
    hide Requested, Delivered, Accounted, Failing, Covered, Retried, Adapted, Complete, Distinct;
  }

  lemma HeadResent(w: Setting, s: Engine)
    requires Inv(w, s) && Marked(s) && Spare(w, s) && s.outcome == Running
    requires s.retxQueue != [] && s.retxQueue[0] in s.segmentInfo
    ensures var s1 := s.(retxQueue := s.retxQueue[1..]); var r := Resend(w.c, s1, s.retxQueue[0]);
            Inv(w, r) && Marked(r) && Spare(w, r) && ResentOnce(s1, s.retxQueue[0], r) && r.outcome == Running
  {
    var segNo, s1 := s.retxQueue[0], s.(retxQueue := s.retxQueue[1..]);
    PopKeeps(w, s);
    DistinctQueue(w, s);
    ResendKeeps(w, s1, segNo);
    hide Inv, InvWith, Retried, Marked, Distinct, Count, Resend;
    FewerMarked(s, s1);
    ResendMarked(w.c, s1, segNo);
    HeadMayRetry(w, s, segNo);
    RetriesOnce(w.c, s1, segNo);
    ResentKeys(s1, segNo, Resend(w.c, s1, segNo));
    hide Spare, ResentOnce, MayRetry;
    SpareAfter(w, s, Resend(w.c, s1, segNo));
  }

  lemma HeadMayRetry(w: Setting, s: Engine, segNo: nat)
    requires Retried(w, s, {}) && Marked(s) && Spare(w, s) && segNo in s.segmentInfo && segNo in s.retxQueue
    ensures MayRetry(w.c, s, segNo)
  {
    hide Count, Retried, Marked;
    RetriesExactly(w, s, segNo);
  }

  lemma ResentKeys(s: Engine, segNo: nat, r: Engine)
    requires ResentOnce(s, segNo, r) && segNo in s.segmentInfo
    ensures r.segmentInfo.Keys == s.segmentInfo.Keys && r.log.resent == s.log.resent + [segNo]
    ensures r.retxQueue == s.retxQueue && r.outcome == Running
  {
  }

  // ------------------------------------------------------------------ timeouts

  /** Some segment first requested after the last loss event has arrived. */
  ghost predicate NewsSinceLoss(s: Engine) { exists k :: k in s.log.arrivals && k > s.recPoint }

  /** A loss event: the window is decreased once, and the next loss event has to wait for Data of
      a segment requested after the last one so far. */
  ghost predicate Decreased(c: Config, s: Engine, r: Engine)
    requires c.Fits(s.window)
  {
    && r.window == DecreaseWindow(c.options, s.window) && r.nLossEvents == s.nLossEvents + 1
    && s.log.requests != [] && r.recPoint == s.log.requests[|s.log.requests| - 1]
  }

  ghost predicate SameWindow(s: Engine, r: Engine) {
    r.window == s.window && r.nLossEvents == s.nLossEvents && r.recPoint == s.recPoint
  }

  /** Whether a timeout is a loss event. */
  ghost predicate Reacts(c: Config, s: Engine, r: Engine)
    requires c.Fits(s.window)
  {
    if c.options.disableCwa || NewsSinceLoss(s) then Decreased(c, s, r) else SameWindow(s, r)
  }

  /** These segments are lost: they are queued, their units in flight given back, and the timeout is
      judged. */
  ghost predicate Lost(c: Config, s: Engine, due: set<nat>, r: Engine)
    requires c.Fits(s.window)
  {
    && Requeued(s, r, due) && Reacts(c, s, r)
    && r.nInFlight == Minus(s.nInFlight, |due|) && r.outcome == s.outcome && r.retxCount == s.retxCount
    && r.log == s.log.(lossMarks := r.log.lossMarks, arrivalMarks := r.log.arrivalMarks)
    && SameRest(s, r.(retxQueue := s.retxQueue))
  }

  lemma NewsExactly(s: Engine)
    requires Newest(s)
    ensures s.highData > s.recPoint <==> NewsSinceLoss(s)
  {
  }

  lemma ReactsExactly(w: Setting, s: Engine)
    requires Requested(w, s) && Newest(s) && s.log.requests != [] && w.c.Fits(s.window)
    ensures Reacts(w.c, s, ReactToLoss(w.c, s))
  {
    hide DecreaseWindow;
    NewsExactly(s);
  }

  lemma OverdueWasRequested(w: Setting, s: Engine, expired: seq<nat>)
    requires Queued(s, {}) && Overdue(s, expired) != {}
    ensures s.log.requests != []
  {
    var k :| k in Overdue(s, expired);
    assert k in s.log.requests;
  }

  /** The check of the timers changes nothing when none of a segment in flight has expired.
      Otherwise exactly the segments whose timers have expired are lost, in one timeout, and the
      window is used again. */
  lemma TimeoutsExactly(w: Setting, s: Engine, expired: seq<nat>)
    requires Reached(w, s) && s.outcome == Running
    ensures var r := Step(w.c, s, RtoTick(expired)); var due := Overdue(s, expired);
            if due == {} then r == s
            else exists s1 :: Lost(w.c, s, due, s1) && r == SchedulePackets(w.c, s1)
  {
    hide Reached, Inv, Marked, Newest, InFlight, Overdue, ScheduleLoop, ReactToLoss, Lost, Requeued;
    ReachedKept(w, s);
    TimersExactly(s, expired);
    var due := Overdue(s, expired);
    if due == {} {
      NoTimeout(s, ExpireTimers(s, expired));
    } else {
      KeptRequested(w, s, expired);
      LostExactly(w, s, ExpireTimers(s, expired), due);
    }
  }

  lemma KeptRequested(w: Setting, s: Engine, expired: seq<nat>)
    requires Kept(w, s) && Overdue(s, expired) != {}
    ensures Requested(w, s) && Newest(s) && s.log.requests != []
  {
    hide Requested, Delivered, Accounted, Failing, Covered, Retried, Adapted, Complete, Marked, Newest;
    OverdueWasRequested(w, s, expired);
  }

  lemma HoldsFirst(q: seq<nat>)
    requires q != []
    ensures q[0] in q
  {
  }

  lemma NoTimeout(s: Engine, r: Engine)
    requires Requeued(s, r, {}) && r == s.(retxQueue := r.retxQueue, segmentInfo := r.segmentInfo)
    ensures r == s
  {
    if r.retxQueue[|s.retxQueue|..] != [] {
      HoldsFirst(r.retxQueue[|s.retxQueue|..]);
      assert false;
    }
    assert r.segmentInfo == s.segmentInfo;
  }

  lemma LostExactly(w: Setting, s: Engine, s0: Engine, due: set<nat>)
    requires Requested(w, s) && Newest(s) && s.log.requests != [] && w.c.Fits(s.window)
    requires Requeued(s, s0, due) && s0 == s.(retxQueue := s0.retxQueue, segmentInfo := s0.segmentInfo)
    ensures var s1 := ReactToLoss(w.c, s0);
            Lost(w.c, s, due, s1.(nInFlight := Minus(s1.nInFlight, |due|)))
  {
    hide DecreaseWindow, Increasing, Requeued;
    ReactsExactly(w, s);
    var s1 := ReactToLoss(w.c, s0);
    SameRequeued(s, s0, s1.(nInFlight := Minus(s1.nInFlight, |due|)), due);
  }

  lemma SameRequeued(s: Engine, s0: Engine, r: Engine, due: set<nat>)
    requires Requeued(s, s0, due) && r.segmentInfo == s0.segmentInfo && r.retxQueue == s0.retxQueue
    ensures Requeued(s, r, due)
  {
  }

  /** A congestion Nack and the end of an Interest's lifetime are the expiry of that one timer; a
      duplicate Nack is nothing at all. */
  lemma SignalsAgree(w: Setting, s: Engine, segNo: nat)
    requires Reached(w, s) && s.outcome == Running && segNo in InFlight(s.segmentInfo)
    ensures Step(w.c, s, NackArrives(segNo, Congestion)) == Step(w.c, s, RtoTick([segNo]))
    ensures Step(w.c, s, LifetimeExpires(segNo)) == Step(w.c, s, RtoTick([segNo]))
    ensures Step(w.c, s, NackArrives(segNo, Duplicate)) == s
  {
    hide Reached, HandleTimeout;
    assert [segNo][1..] == [];
    assert ExpireTimers(s, [segNo]) == ExpireTimers(Enqueue(s, segNo), []);
    assert CountExpired(s, [segNo]) == 1 + CountExpired(Enqueue(s, segNo), []);
  }

  // ------------------------------------------------------------------ arriving Data

  /** Data has been taken in: passed on, the window increased once, the unit in flight given back.
      Its segment stays tracked exactly when a copy may follow: it was resent, and both Interests may
      be answered. */
  ghost predicate Booked(c: Config, s: Engine, segNo: nat, g: C.Growth, r: Engine)
    requires c.Fits(s.window)
  {
    && r.log == s.log.(arrivals := s.log.arrivals + [segNo], delivered := s.log.delivered + [segNo])
    && r.window == IncreaseWindow(c.options, s.window, g)
    && r.segmentInfo == (if segNo in InFlight(s.segmentInfo) && segNo in s.log.resent
                         then s.segmentInfo[segNo := RetxReceived] else s.segmentInfo - {segNo})
    && r.nInFlight == (if segNo in InFlight(s.segmentInfo) then Minus(s.nInFlight, 1) else s.nInFlight)
    && SameRest(s, r) && r.retxCount == s.retxCount
    && r.outcome == s.outcome && r.recPoint == s.recPoint && r.nLossEvents == s.nLossEvents
  }

  lemma BooksExactly(w: Setting, s: Engine, segNo: nat, g: C.Growth)
    requires Delivered(w, s) && Marked(s) && w.c.Fits(s.window)
    requires segNo in s.segmentInfo && segNo !in s.log.delivered
    ensures s.segmentInfo[segNo] != RetxReceived
    ensures var r := Book(w.c, RaiseHighData(s, segNo), segNo, g);
            Booked(w.c, s, segNo, g, r) && r.nReceived - 1 == |r.log.delivered|
  {
    hide IncreaseWindow, Distinct;
  }

  /** Data of a tracked segment that had not been received yet is booked; then either the content is
      complete and the run succeeds, or the window is used again. */
  lemma DataExactly(w: Setting, s: Engine, segNo: nat, final: Option<nat>, g: C.Growth)
    requires Reached(w, s) && s.outcome == Running && (s.hasFinalBlockId || final == None)
    requires segNo in s.segmentInfo && segNo !in s.log.delivered
    ensures exists s1 :: Booked(w.c, s, segNo, g, s1)
              && Step(w.c, s, DataArrives(segNo, final, g)) ==
                   if s.hasFinalBlockId && |s1.log.delivered| >= s.lastSegmentNo
                   then s1.(outcome := Succeeded, segmentInfo := map[]) else SchedulePackets(w.c, s1)
  {
    hide Reached, Kept, Delivered, Marked, Booked, ScheduleLoop;
    ReachedKept(w, s);
    KeptDelivered(w, s);
    BooksExactly(w, s, segNo, g);
    var s1 := Book(w.c, RaiseHighData(s, segNo), segNo, g);
    BookedSame(w.c, s, segNo, g, s1);
    hide Book;
    assert Receive(w.c, s, segNo, g) == Accept(w.c, RaiseHighData(s, segNo), segNo, g);
  }

  lemma KeptDelivered(w: Setting, s: Engine)
    requires Kept(w, s)
    ensures Delivered(w, s) && Marked(s) && w.c.Fits(s.window)
  {
    hide Requested, Queued, Delivered, Accounted, Failing, Covered, Retried, Adapted, Complete, Marked, Newest;
  }

  lemma BookedSame(c: Config, s: Engine, segNo: nat, g: C.Growth, r: Engine)
    requires c.Fits(s.window) && Booked(c, s, segNo, g, r)
    ensures r.hasFinalBlockId == s.hasFinalBlockId && r.lastSegmentNo == s.lastSegmentNo && r.outcome == s.outcome
  {
  }

  /** Data that was delivered before, or whose segment CUBIC no longer tracks, changes nothing but
      what is known of arrivals, and that its segment is no longer waited for. */
  lemma RepeatsExactly(w: Setting, s: Engine, segNo: nat, final: Option<nat>, g: C.Growth)
    requires Reached(w, s) && s.outcome == Running && (s.hasFinalBlockId || final == None)
    requires segNo in s.log.delivered || segNo !in s.segmentInfo
    requires w.c.options.Guarded() || segNo in s.segmentInfo
    ensures Step(w.c, s, DataArrives(segNo, final, g)) ==
            s.(segmentInfo := s.segmentInfo - {segNo},
               highData := if segNo > s.highData then segNo else s.highData,
               log := s.log.(arrivals := s.log.arrivals + [segNo]))
  {
    hide Reached, Kept, Delivered, Marked, Accept;
    ReachedKept(w, s);
    KeptDelivered(w, s);
    ReceivedMark(w, s, segNo);
    if segNo !in s.segmentInfo {
      assert s.segmentInfo - {segNo} == s.segmentInfo;
    }
  }

  lemma ReceivedMark(w: Setting, s: Engine, segNo: nat)
    requires Delivered(w, s)
    ensures segNo in s.segmentInfo && segNo in s.log.delivered ==> s.segmentInfo[segNo] == RetxReceived
  {
  }

  /** A first FinalBlockId is learnt before its segment is looked at, and no later one is. */
  lemma LearnsFirst(c: Config, s: Engine, segNo: nat, last: nat, g: C.Growth)
    requires c.Fits(s.window) && s.outcome == Running
    ensures var s1 := LearnFinalBlockId(s, last);
            Step(c, s, DataArrives(segNo, Some(last), g)) ==
              Step(c, if s.hasFinalBlockId then s else s1, DataArrives(segNo, None, g))
  {
    hide Receive;
  }

  // ------------------------------------------------------------------ the window over a run

  /** What the window has felt of one event, told by what was delivered and by the loss events. */
  ghost function Felt(c: Config, s: Engine, e: Event): seq<Signal>
    requires c.Fits(s.window)
  {
    var r := Step(c, s, e);
    if e.DataArrives? && |r.log.delivered| > |s.log.delivered| then [C.Ack(e.growth)]
    else if r.nLossEvents > s.nLossEvents then [C.Loss]
    else []
  }

  ghost function FeltOver(c: Config, s: Engine, events: seq<Event>): seq<Signal>
    requires c.Fits(s.window)
    decreases |events|
  {
    if events == [] then [] else Felt(c, s, events[0]) + FeltOver(c, Step(c, s, events[0]), events[1..])
  }

  /** The window and the counters from one state to another. */
  ghost predicate Adapts(c: Config, s: Engine, r: Engine, felt: seq<Signal>)
    requires c.Fits(s.window)
  {
    && r.window == After(c.options, s.window, felt)
    && r.nLossEvents == s.nLossEvents + Losses(felt)
    && |r.log.delivered| == |s.log.delivered| + |felt| - Losses(felt)
  }

  lemma ReceiveAdapts(c: Config, s: Engine, segNo: nat, g: C.Growth)
    requires c.Fits(s.window)
    ensures var r := Receive(c, s, segNo, g);
            && r.nLossEvents == s.nLossEvents
            && (|| (r.log.delivered == s.log.delivered && r.window == s.window)
                || (|r.log.delivered| == |s.log.delivered| + 1
                    && r.window == IncreaseWindow(c.options, s.window, g)))
  {
    hide IncreaseWindow, ScheduleLoop;
  }

  lemma DataAdapts(c: Config, s: Engine, segNo: nat, final: Option<nat>, g: C.Growth)
    requires c.Fits(s.window)
    ensures var r := HandleData(c, s, segNo, final, g);
            && r.nLossEvents == s.nLossEvents
            && (|| (r.log.delivered == s.log.delivered && r.window == s.window)
                || (|r.log.delivered| == |s.log.delivered| + 1
                    && r.window == IncreaseWindow(c.options, s.window, g)))
  {
    hide IncreaseWindow, Receive;
    var s1 := if !s.hasFinalBlockId && final.Some? then LearnFinalBlockId(s, final.value) else s;
    ReceiveAdapts(c, s1, segNo, g);
  }

  lemma TimeoutAdapts(c: Config, s: Engine, timeoutCount: nat)
    requires c.Fits(s.window)
    ensures var r := HandleTimeout(c, s, timeoutCount);
            && r.log.delivered == s.log.delivered
            && (|| (r.nLossEvents == s.nLossEvents && r.window == s.window)
                || (r.nLossEvents == s.nLossEvents + 1 && r.window == DecreaseWindow(c.options, s.window)))
  {
    hide DecreaseWindow, ScheduleLoop;
  }

  lemma StepAdapts(c: Config, s: Engine, e: Event)
    requires c.Fits(s.window)
    ensures Adapts(c, s, Step(c, s, e), Felt(c, s, e))
  {
    hide HandleData, HandleTimeout, ExpireTimers, CountExpired, IncreaseWindow, DecreaseWindow;
    match e
    case DataArrives(segNo, final, g) =>
      DataAdapts(c, s, segNo, final, g);
      OneSignal(c.options, s.window, C.Ack(g));
    case NackArrives(segNo, reason) =>
      TimeoutAdapts(c, Enqueue(s, segNo), 1);
      OneSignal(c.options, s.window, C.Loss);
    case LifetimeExpires(segNo) =>
      TimeoutAdapts(c, Enqueue(s, segNo), 1);
      OneSignal(c.options, s.window, C.Loss);
    case RtoTick(expired) =>
      TimeoutAdapts(c, ExpireTimers(s, expired), CountExpired(s, expired));
      OneSignal(c.options, s.window, C.Loss);
  }

  lemma {:induction false} RunAdapts(c: Config, s: Engine, events: seq<Event>)
    requires c.Fits(s.window)
    ensures Adapts(c, s, Run(c, s, events), FeltOver(c, s, events))
    decreases |events|
  {
    hide Step, Felt;
    if events != [] {
      var s1 := Step(c, s, events[0]);
      StepAdapts(c, s, events[0]);
      RunAdapts(c, s1, events[1..]);
      SignalsInTurn(c.options, s.window, Felt(c, s, events[0]), FeltOver(c, s1, events[1..]));
    }
  }

  /** Over every run the window is what its policy makes of the initial one when it is increased once
      for each delivery and decreased once for each loss event, in the order of these. */
  lemma WindowFollowsPolicy(c: Config, finalBlockId: Option<nat>, events: seq<Event>)
    requires c.options.Valid()
    ensures var s := Run(c, Start(c, finalBlockId), events);
            var felt := FeltOver(c, Start(c, finalBlockId), events);
            && s.window == After(c.options, InitialWindow(c.options), felt)
            && Losses(felt) == s.nLossEvents && |felt| == |s.log.delivered| + s.nLossEvents
  {
    hide Step, Felt, FeltOver, Run;
    RunAdapts(c, Start(c, finalBlockId), events);
  }
}
