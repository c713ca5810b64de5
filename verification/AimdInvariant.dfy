/** The part of the invariant of the adaptive engine that survives Data for segments that are no
    longer tracked, as AIMD and BIC take it in. */
module AimdInvariant {
  import opened WindowPolicy
  import C = CubicWindow
  import opened AdaptiveSpec
  import opened Network
  import opened Optional
  import opened Counting
  import opened AdaptiveInvariant
  import opened AdaptiveTheorems

  /** Deliveries are of requested segments of the content and are counted, repetitions included;
      a tracked segment has been delivered exactly when its state says so. */
  ghost predicate Received(w: Setting, s: Engine) {
    var d := s.log.delivered;
    && (forall k :: k in d ==> k in s.log.requests && k <= s.highData && k <= w.content)
    && (forall k :: k in s.segmentInfo ==> (s.segmentInfo[k] == RetxReceived <==> k in d))
    && s.nReceived == |d| + 1
    && (s.outcome == Succeeded ==> s.hasFinalBlockId && |d| >= w.content)
  }

  /** The part of the invariant that untracked Data leaves intact. */
  ghost predicate Ordered(w: Setting, s: Engine, aside: set<nat>) {
    && Requested(w, s) && Queued(s, aside) && Received(w, s)
    && (s.hasFinalBlockId ==> s.lastSegmentNo == w.content
                              && forall k :: k in s.segmentInfo ==> k <= s.lastSegmentNo)
  }

  /** Forgetting segments keeps the order. */
  lemma FewerTracked(w: Setting, s: Engine, r: Engine, aside: set<nat>)
    requires Ordered(w, s, aside)
    requires r.segmentInfo == map[] || r.outcome == s.outcome == Running
    requires r.outcome == s.outcome || r.outcome == Failed
    requires forall k :: k in r.segmentInfo ==>
               k in s.segmentInfo && r.segmentInfo[k] == s.segmentInfo[k] && k !in aside
    requires r.retxQueue == s.retxQueue && r.nextSegmentNo == s.nextSegmentNo && r.highInterest == s.highInterest
    requires r.highData == s.highData && r.nReceived == s.nReceived
    requires r.log.requests == s.log.requests && r.log.delivered == s.log.delivered
    requires r.hasFinalBlockId == s.hasFinalBlockId && r.lastSegmentNo == s.lastSegmentNo
    ensures Ordered(w, r, {})
  {
    hide Distinct, Increasing;
  }

  /** States that agree on the segments. */
  lemma SameOrder(w: Setting, s: Engine, r: Engine)
    requires Ordered(w, s, {})
    requires r.segmentInfo == s.segmentInfo && r.outcome == s.outcome && r.retxQueue == s.retxQueue
    requires r.nextSegmentNo == s.nextSegmentNo && r.highInterest == s.highInterest
    requires r.highData >= s.highData && r.nReceived == s.nReceived
    requires r.log.requests == s.log.requests && r.log.delivered == s.log.delivered
    requires r.hasFinalBlockId == s.hasFinalBlockId && r.lastSegmentNo == s.lastSegmentNo
    ensures Ordered(w, r, {})
  {
    hide Distinct, Increasing;
  }

  lemma FailOrdered(w: Setting, s: Engine, segNo: nat, aside: set<nat>)
    requires Ordered(w, s, aside) && aside <= {segNo}
    requires s.outcome == Running ==> segNo in s.segmentInfo
    requires s.outcome != Running ==> aside == {}
    ensures Ordered(w, HandleFail(s, segNo), {})
  {
    if s.outcome == Running {
      FewerTracked(w, s, HandleFail(s, segNo), aside);
    }
  }

  lemma SendNextOrdered(w: Setting, s: Engine)
    requires Ordered(w, s, {})
    ensures Ordered(w, SendNext(w.c, s), {})
  {
    SendNextRequested(w, s);
    SendNextQueued(w, s);
    SendNextReceived(w, s);
    hide Requested, Queued, Received;
  }

  lemma SendNextReceived(w: Setting, s: Engine)
    requires Requested(w, s) && Queued(s, {}) && Received(w, s)
    ensures Received(w, SendNext(w.c, s))
  {
    NextIsNew(w, s);
  }

  lemma PopOrdered(w: Setting, s: Engine)
    requires Ordered(w, s, {}) && s.retxQueue != []
    ensures var r := s.(retxQueue := s.retxQueue[1..]); var segNo := s.retxQueue[0];
            && Ordered(w, r, {segNo}) && segNo !in r.retxQueue
            && (segNo !in s.segmentInfo ==> Ordered(w, r, {}))
            && (segNo in s.segmentInfo ==> s.segmentInfo[segNo] == InRetxQueue)
  {
    assert s.retxQueue[0] in s.retxQueue;
    PopQueued(s);
    hide Distinct;
  }

  lemma ResendOrdered(w: Setting, s: Engine, segNo: nat)
    requires Ordered(w, s, {segNo}) && segNo !in s.retxQueue
    requires segNo in s.segmentInfo && s.segmentInfo[segNo] == InRetxQueue
    ensures Ordered(w, Resend(w.c, s, segNo), {})
  {
    var s1 := s.(retxCount := s.retxCount[segNo := Attempt(s, segNo)]);
    if !MayRetry(w.c, s, segNo) {
      FailOrdered(w, s1, segNo, {segNo});
    } else {
      hide Distinct, Increasing;
    }
  }

  lemma {:induction false} ScheduleOrdered(w: Setting, s: Engine, available: int)
    requires Ordered(w, s, {})
    ensures Ordered(w, ScheduleLoop(w.c, s, available), {})
    decreases if available > 0 then available else 0, |s.retxQueue|
  {
    hide Ordered;
    if available <= 0 {
    } else if s.retxQueue != [] {
      var segNo := s.retxQueue[0];
      var s1 := s.(retxQueue := s.retxQueue[1..]);
      PopOrdered(w, s);
      if segNo !in s.segmentInfo {
        ScheduleOrdered(w, s1, available);
      } else {
        ResendOrdered(w, s1, segNo);
        ScheduleOrdered(w, Resend(w.c, s1, segNo), available - 1);
      }
    } else {
      SendNextOrdered(w, s);
      ScheduleOrdered(w, SendNext(w.c, s), available - 1);
    }
  }

  // ------------------------------------------------------------------ timeouts and failures

  lemma EnqueueOrdered(w: Setting, s: Engine, segNo: nat)
    requires Ordered(w, s, {}) && segNo in s.segmentInfo && Flying(s.segmentInfo[segNo])
    ensures Ordered(w, Enqueue(s, segNo), {})
  {
    assert segNo !in s.retxQueue;
    hide Increasing;
  }

  lemma {:induction false} ExpireOrdered(w: Setting, s: Engine, expired: seq<nat>)
    requires Ordered(w, s, {})
    ensures Ordered(w, ExpireTimers(s, expired), {})
    decreases |expired|
  {
    hide Ordered;
    if expired == [] {
    } else if TimerRuns(s, expired[0]) {
      EnqueueOrdered(w, s, expired[0]);
      ExpireOrdered(w, Enqueue(s, expired[0]), expired[1..]);
    } else {
      ExpireOrdered(w, s, expired[1..]);
    }
  }

  lemma TimeoutOrdered(w: Setting, s: Engine, timeoutCount: nat)
    requires w.c.Fits(s.window) && Ordered(w, s, {})
    ensures Ordered(w, HandleTimeout(w.c, s, timeoutCount), {})
  {
    if timeoutCount > 0 {
      var s1 := ReactToLoss(w.c, s);
      var s2 := s1.(nInFlight := Minus(s1.nInFlight, timeoutCount));
      SameOrder(w, s, s2);
      hide Ordered, ReactToLoss;
      ScheduleOrdered(w, s2, AvailableWindow(s2));
    }
  }

  lemma NackOrdered(w: Setting, s: Engine, segNo: nat, reason: NackReason)
    requires Ordered(w, s, {}) && w.c.Fits(s.window)
    requires s.outcome == Running ==> reason == Duplicate || segNo in InFlight(s.segmentInfo)
    ensures Ordered(w, HandleNack(w.c, s, segNo, reason), {})
  {
    if s.outcome == Running && reason == Congestion {
      EnqueueOrdered(w, s, segNo);
      hide Ordered, HandleTimeout;
      TimeoutOrdered(w, Enqueue(s, segNo), 1);
    } else if s.outcome == Running && reason == OtherReason {
      hide Ordered, HandleFail;
      FailOrdered(w, s, segNo, {});
    }
  }

  lemma ExpiryOrdered(w: Setting, s: Engine, segNo: nat)
    requires Ordered(w, s, {}) && w.c.Fits(s.window)
    requires s.outcome == Running ==> segNo in InFlight(s.segmentInfo)
    ensures Ordered(w, HandleLifetimeExpiration(w.c, s, segNo), {})
  {
    if s.outcome == Running {
      EnqueueOrdered(w, s, segNo);
      hide Ordered, HandleTimeout;
      TimeoutOrdered(w, Enqueue(s, segNo), 1);
    }
  }

  lemma CheckRtoOrdered(w: Setting, s: Engine, expired: seq<nat>)
    requires Ordered(w, s, {}) && w.c.Fits(s.window)
    ensures Ordered(w, CheckRto(w.c, s, expired), {})
  {
    hide Ordered, HandleTimeout;
    if s.outcome == Running {
      ExpireOrdered(w, s, expired);
      TimeoutOrdered(w, ExpireTimers(s, expired), CountExpired(s, expired));
    }
  }

  // ------------------------------------------------------------------ arriving Data

  lemma LearnOrdered(w: Setting, s: Engine)
    requires Ordered(w, s, {}) && s.outcome == Running
    ensures Ordered(w, LearnFinalBlockId(s, w.content), {})
  {
    hide Distinct, Increasing;
  }

  /** Booking a segment, tracked or not. */
  lemma BookOrdered(w: Setting, s: Engine, segNo: nat, g: C.Growth)
    requires Ordered(w, s, {}) && w.c.Fits(s.window) && s.outcome == Running
    requires segNo in s.log.requests && segNo <= w.content && segNo <= s.highData
    requires segNo in s.segmentInfo ==> s.segmentInfo[segNo] != RetxReceived
    ensures var s1 := if segNo in s.segmentInfo then s else Subscripted(s, segNo);
            Ordered(w, Book(w.c, s1, segNo, g), {})
  {
    hide IncreaseWindow, Increasing, Distinct;
    var s1 := if segNo in s.segmentInfo then s else Subscripted(s, segNo);
    var r := Book(w.c, s1, segNo, g);
    assert r.log.delivered == s.log.delivered + [segNo];
    assert segNo !in s.segmentInfo ==> r.segmentInfo == s.segmentInfo;
  }

  lemma SuccessOrdered(w: Setting, s: Engine)
    requires Ordered(w, s, {}) && s.hasFinalBlockId && s.nReceived - 1 >= s.lastSegmentNo
    ensures Ordered(w, Cancel(s, Succeeded), {})
  {
    hide Increasing, Distinct;
  }

  lemma AcceptOrdered(w: Setting, s: Engine, segNo: nat, g: C.Growth)
    requires w.c.Fits(s.window) && s.outcome == Running
    requires segNo in s.segmentInfo && s.segmentInfo[segNo] != RetxReceived
    requires Ordered(w, Book(w.c, s, segNo, g), {})
    ensures Ordered(w, Accept(w.c, s, segNo, g), {})
  {
    hide Book;
    var s1 := Book(w.c, s, segNo, g);
    if s1.hasFinalBlockId && s1.nReceived - 1 >= s1.lastSegmentNo {
      SuccessOrdered(w, s1);
    } else {
      hide Ordered;
      ScheduleOrdered(w, s1, AvailableWindow(s1));
    }
  }

  // ------------------------------------------------------------------ start

  lemma StartOrdered(w: Setting, finalBlockId: Option<nat>)
    requires Opens(w, finalBlockId)
    ensures Ordered(w, Start(w.c, finalBlockId), {})
  {
    StartKeeps(w, finalBlockId);
    var s := Start(w.c, finalBlockId);
    assert s.outcome == Running;
  }
}
