/** What every handler of the adaptive engine keeps, under the assumptions on the network
    written out in `Allowed`. */
module AdaptiveInvariant {
  import opened WindowPolicy
  import C = CubicWindow
  import opened AdaptiveSpec
  import opened Network
  import opened Optional
  import opened Counting

  /** A pipeline, the last segment of the content it fetches, and whether that segment
      number was known when the pipeline was started. */
  datatype Setting = Setting(c: Config, content: nat, known: bool)

  /** The discovered segment belongs to the content. */
  ghost predicate Sound(w: Setting) { w.c.options.Valid() && w.c.excluded <= w.content }

  // ------------------------------------------------------------------ sequences and sets

  predicate Flying(state: SegmentState) { state == FirstTimeSent || state == Retransmitted }

  /** The segments with an Interest of theirs in the network. */
  ghost function InFlight(info: map<nat, SegmentState>): set<nat> {
    set k | k in info && Flying(info[k])
  }

  lemma InFlightUpdated(info: map<nat, SegmentState>, k: nat, state: SegmentState)
    ensures var before := if k in InFlight(info) then 1 else 0;
            var after := if Flying(state) then 1 else 0;
            |InFlight(info[k := state])| == |InFlight(info)| - before + after
  {
    hide InFlight;
    InFlightElsewhere(info, k, state);
    Without(InFlight(info), k);
    Without(InFlight(info[k := state]), k);
  }

  lemma InFlightElsewhere(info: map<nat, SegmentState>, k: nat, state: SegmentState)
    ensures InFlight(info[k := state]) - {k} == InFlight(info) - {k}
    ensures k in InFlight(info[k := state]) <==> Flying(state)
  {
  }

  lemma Without(a: set<nat>, k: nat)
    ensures |a - {k}| == |a| - if k in a then 1 else 0
  {
    if k !in a {
      assert a - {k} == a;
    }
  }

  lemma InFlightRemoved(info: map<nat, SegmentState>, gone: set<nat>)
    ensures InFlight(info - gone) == InFlight(info) - gone
    ensures |InFlight(info)| - |gone| <= |InFlight(info - gone)| <= |InFlight(info)|
  {
    assert InFlight(info - gone) == InFlight(info) - gone;
    assert InFlight(info) <= InFlight(info - gone) + gone;
    SubsetSize(InFlight(info), InFlight(info - gone) + gone);
    SubsetSize(InFlight(info - gone), InFlight(info));
  }

  // ------------------------------------------------------------------ the invariant

  /** First-time Interests go out in increasing order and skip the excluded segment. */
  ghost predicate Requested(w: Setting, s: Engine) {
    var r := s.log.requests;
    && Increasing(r)
    && (forall i :: 0 <= i < |r| ==> r[i] < s.nextSegmentNo && r[i] != w.c.excluded)
    && s.highInterest == (if r == [] then 0 else r[|r| - 1])
  }

  /** A tracked segment sits in the retransmission queue, once, exactly when its state says
      so; segments in `aside` are exempt. */
  ghost predicate Queued(s: Engine, aside: set<nat>) {
    && (s.outcome != Running ==> s.segmentInfo == map[])
    && (forall k :: k in s.segmentInfo ==> k in s.log.requests)
    && Distinct(s.retxQueue)
    && (forall k :: k in s.retxQueue ==> k in s.log.requests)
    && (forall k :: k in s.segmentInfo && k !in aside ==>
          (s.segmentInfo[k] == InRetxQueue <==> k in s.retxQueue))
  }

  /** Each segment is delivered at most once, and the books count the deliveries. */
  ghost predicate Delivered(w: Setting, s: Engine) {
    var d := s.log.delivered;
    && Distinct(d)
    && (forall k :: k in d ==> k in s.log.requests && k <= s.highData && k <= w.content)
    && (forall k :: k in s.segmentInfo ==> (s.segmentInfo[k] == RetxReceived <==> k in d))
    && s.nReceived == |d| + 1
  }

  /** The number of segments in flight is never overestimated, up to `slack` timeouts that
      are still to be accounted for, and exact when the last segment was known from the
      start. */
  ghost predicate Accounted(w: Setting, s: Engine, slack: nat) {
    s.outcome == Running ==>
      && s.nInFlight <= |InFlight(s.segmentInfo)| + slack
      && (w.known ==> s.hasFinalBlockId && s.nInFlight == |InFlight(s.segmentInfo)| + slack)
  }

  /** `failedSegNo` is the least segment given up; nothing from there on is tracked. */
  ghost predicate Failing(w: Setting, s: Engine) {
    var f := s.log.failures;
    && Decreasing(f)
    && (forall k :: k in f ==> k in s.log.requests && k < s.nextSegmentNo)
    && (s.hasFinalBlockId ==> s.lastSegmentNo == w.content)
    && (s.outcome == Running ==>
          && (s.hasFailure ==> !s.hasFinalBlockId && f != [] && s.failedSegNo == f[|f| - 1])
          && (s.hasFailure ==> forall k :: k in s.segmentInfo ==> k < s.failedSegNo)
          && (!s.hasFailure && !s.hasFinalBlockId ==> f == [])
          && (s.hasFinalBlockId ==> forall k :: k in f ==> k > s.lastSegmentNo)
          && (s.hasFinalBlockId ==> forall k :: k in s.segmentInfo ==> k <= s.lastSegmentNo))
  }

  /** A segment that the engine may forget: beyond the end, or from a failed one on. */
  ghost predicate Abandoned(s: Engine, k: nat) {
    || (s.hasFinalBlockId && k > s.lastSegmentNo)
    || (s.hasFailure && k >= s.failedSegNo)
  }

  /** No segment of the content is lost. */
  ghost predicate Covered(w: Setting, s: Engine) {
    s.outcome == Running ==>
      forall k: nat :: k < s.nextSegmentNo && k != w.c.excluded ==>
        k in s.log.delivered || k in s.segmentInfo || Abandoned(s, k)
  }

  function RetryLimit(c: Config): nat { if c.options.maxRetries > 1 then c.options.maxRetries else 1 }

  function Count(q: seq<nat>, k: nat): nat { multiset(q)[k] }

  /** Retransmissions of a segment stay within the limit and are what `retxCount` says. */
  ghost predicate Retried(w: Setting, s: Engine, aside: set<nat>) {
    && (forall k: nat :: Count(s.log.resent, k) <= RetryLimit(w.c))
    && (forall k :: k in s.segmentInfo && k !in aside ==> Attempt(s, k) == Count(s.log.resent, k) + 1)
    && (forall k :: k in s.log.resent ==> k in s.log.requests)
    && (forall k :: k in s.retxCount ==> k in s.log.requests)
  }

  /** Conservative window adaptation: each window decrease raises the recovery point to the
      newest request. */
  ghost predicate Adapted(w: Setting, s: Engine) {
    var m := s.log.lossMarks;
    && (s.highData == 0 || s.highData in s.log.requests)
    && s.nLossEvents == |m|
    && (forall i :: 0 <= i < |m| ==> 0 < m[i] <= |s.log.requests|)
    && s.recPoint == (if m == [] then 0 else s.log.requests[m[|m| - 1] - 1])
    && (!w.c.options.disableCwa ==> Increasing(m) && s.nLossEvents <= s.recPoint)
  }

  /** The success stop happens only when the whole content has been received. */
  ghost predicate Complete(w: Setting, s: Engine) {
    && (w.known && s.outcome == Running && w.content >= 1 ==> |s.log.delivered| < s.lastSegmentNo)
    && (s.outcome == Succeeded ==>
          s.hasFinalBlockId && forall k: nat :: k <= w.content && k != w.c.excluded ==> k in s.log.delivered)
  }

  ghost predicate InvWith(w: Setting, s: Engine, aside: set<nat>, slack: nat) {
    && Requested(w, s) && Queued(s, aside) && Delivered(w, s) && Accounted(w, s, slack)
    && Failing(w, s) && Covered(w, s) && Retried(w, s, aside) && Adapted(w, s) && Complete(w, s)
  }

  ghost predicate Inv(w: Setting, s: Engine) { InvWith(w, s, {}, 0) }

  /** States that agree on what has been requested, received and learnt. */
  lemma SameRequests(w: Setting, s: Engine, r: Engine)
    requires Requested(w, s) && Adapted(w, s) && Complete(w, s)
    requires r.log == s.log && r.outcome == s.outcome && r.nextSegmentNo == s.nextSegmentNo
    requires r.highInterest == s.highInterest && SameBooks(s, r.(window := s.window))
    ensures Requested(w, r) && Adapted(w, r) && Complete(w, r)
  {
  }

  /** States that agree on the tracked segments, the queue and the deliveries. */
  lemma SameSegments(w: Setting, s: Engine, r: Engine, aside: set<nat>)
    requires Queued(s, aside) && Delivered(w, s)
    requires r.log.(lossMarks := s.log.lossMarks, arrivalMarks := s.log.arrivalMarks) == s.log && r.outcome == s.outcome
    requires r.segmentInfo == s.segmentInfo && r.retxQueue == s.retxQueue
    requires r.highData == s.highData && r.nReceived == s.nReceived
    ensures Queued(r, aside) && Delivered(w, r)
  {
    hide Distinct;
  }

  /** States that agree on which segments are tracked and on the failure flags. */
  lemma SameTracked(w: Setting, s: Engine, r: Engine, aside: set<nat>)
    requires Failing(w, s) && Covered(w, s) && Retried(w, s, aside)
    requires r.log.(lossMarks := s.log.lossMarks, arrivalMarks := s.log.arrivalMarks) == s.log
    requires r.outcome == s.outcome && r.nextSegmentNo == s.nextSegmentNo
    requires r.hasFinalBlockId == s.hasFinalBlockId && r.lastSegmentNo == s.lastSegmentNo
    requires r.segmentInfo.Keys == s.segmentInfo.Keys && r.retxCount == s.retxCount
    requires r.hasFailure == s.hasFailure && r.failedSegNo == s.failedSegNo
    ensures Failing(w, r) && Covered(w, r) && Retried(w, r, aside)
  {
    hide Distinct, Decreasing, Increasing;
    assert forall k :: k in s.segmentInfo <==> k in r.segmentInfo;
  }

  // ------------------------------------------------------------------ requests

  /** What SendNext does when it does send. */
  ghost predicate Sends(w: Setting, s: Engine) {
    && s.outcome == Running && !s.hasFailure
    && (s.hasFinalBlockId ==> NextSegment(w.c, s) <= s.lastSegmentNo)
  }

  lemma NextIsNew(w: Setting, s: Engine)
    requires Requested(w, s)
    ensures NextSegment(w.c, s) !in s.log.requests
    ensures NextSegment(w.c, s) != w.c.excluded
  {
  }

  lemma SendNextRequested(w: Setting, s: Engine)
    requires Requested(w, s)
    ensures Requested(w, SendNext(w.c, s))
  {
  }

  lemma SendNextQueued(w: Setting, s: Engine)
    requires Requested(w, s) && Queued(s, {})
    ensures Queued(SendNext(w.c, s), {})
  {
    NextIsNew(w, s);
  }

  lemma SendNextDelivered(w: Setting, s: Engine)
    requires Requested(w, s) && Queued(s, {}) && Delivered(w, s)
    ensures Delivered(w, SendNext(w.c, s))
  {
    NextIsNew(w, s);
  }

  lemma SendNextAccounted(w: Setting, s: Engine)
    requires Requested(w, s) && Queued(s, {}) && Accounted(w, s, 0)
    ensures Accounted(w, SendNext(w.c, s), 0)
  {
    NextIsNew(w, s);
    InFlightUpdated(s.segmentInfo, NextSegment(w.c, s), FirstTimeSent);
  }

  lemma SendNextFailing(w: Setting, s: Engine)
    requires Failing(w, s) && Covered(w, s)
    ensures Failing(w, SendNext(w.c, s)) && Covered(w, SendNext(w.c, s))
  {
    var r := SendNext(w.c, s);
    assert s.outcome == Running && s.hasFailure ==> s.failedSegNo in s.log.failures;
    forall k: nat | r.outcome == Running && k < r.nextSegmentNo && k != w.c.excluded
      ensures k in r.log.delivered || k in r.segmentInfo || Abandoned(r, k)
    {
      assert k < s.nextSegmentNo || k == NextSegment(w.c, s);
    }
  }

  lemma SendNextRetried(w: Setting, s: Engine)
    requires Requested(w, s) && Retried(w, s, {})
    ensures Retried(w, SendNext(w.c, s), {})
  {
    NextIsNew(w, s);
  }

  lemma SendNextAdapted(w: Setting, s: Engine)
    requires Requested(w, s) && Adapted(w, s) && Complete(w, s)
    ensures Adapted(w, SendNext(w.c, s)) && Complete(w, SendNext(w.c, s))
  {
  }

  lemma SendNextKeeps(w: Setting, s: Engine)
    requires Inv(w, s)
    ensures Inv(w, SendNext(w.c, s))
  {
    SendNextRequested(w, s);
    SendNextQueued(w, s);
    SendNextDelivered(w, s);
    SendNextAccounted(w, s);
    SendNextFailing(w, s);
    SendNextRetried(w, s);
    SendNextAdapted(w, s);
  }

  // ------------------------------------------------------------------ giving up

  lemma FailureStopKeeps(w: Setting, s: Engine, aside: set<nat>, slack: nat)
    requires s.outcome == Running
    requires Requested(w, s) && Queued(s, aside) && Delivered(w, s) && Failing(w, s)
    requires Retried(w, s, aside) && Adapted(w, s)
    ensures Inv(w, OnFailure(s))
  {
  }

  lemma CancelBeyondKeeps(w: Setting, s: Engine, segNo: nat)
    requires !w.known
    requires Queued(s, {}) && Delivered(w, s) && Accounted(w, s, 0) && Retried(w, s, {})
    ensures var r := CancelInFlightSegmentsGreaterThan(s, segNo);
            Queued(r, {}) && Delivered(w, r) && Accounted(w, r, 0) && Retried(w, r, {})
  {
    CancelBeyondAccounted(w, s, segNo);
    hide Accounted;
  }

  lemma CancelBeyondAccounted(w: Setting, s: Engine, segNo: nat)
    requires !w.known && Accounted(w, s, 0)
    ensures Accounted(w, CancelInFlightSegmentsGreaterThan(s, segNo), 0)
  {
    var beyond := set k | k in s.segmentInfo && k > segNo;
    InFlightRemoved(s.segmentInfo, beyond);
  }

  /** Forgetting one segment at the cost of one unit in flight. */
  function Forget(s: Engine, segNo: nat): Engine {
    s.(segmentInfo := s.segmentInfo - {segNo}, nInFlight := Minus(s.nInFlight, 1))
  }

  lemma ForgetKeeps(w: Setting, s: Engine, segNo: nat, aside: set<nat>)
    requires !w.known && aside <= {segNo}
    requires Queued(s, aside) && Delivered(w, s) && Accounted(w, s, 0) && Retried(w, s, aside)
    ensures var r := Forget(s, segNo);
            Queued(r, {}) && Delivered(w, r) && Accounted(w, r, 0) && Retried(w, r, {})
  {
    InFlightRemoved(s.segmentInfo, {segNo});
  }

  /** Recording a failure touches nothing that these parts of the invariant read. */
  lemma MarkKeeps(w: Setting, s: Engine, segNo: nat)
    requires Queued(s, {}) && Delivered(w, s) && Accounted(w, s, 0) && Retried(w, s, {})
    ensures var r := s.(hasFailure := true, failedSegNo := segNo,
                        log := s.log.(failures := s.log.failures + [segNo]));
            Queued(r, {}) && Delivered(w, r) && Accounted(w, r, 0) && Retried(w, r, {})
  {
  }

  /** A newly failed segment becomes the least one. */
  lemma GiveUpKeeps(w: Setting, s: Engine, segNo: nat)
    requires s.outcome == Running && !s.hasFinalBlockId && segNo in s.segmentInfo && segNo in s.log.requests
    requires Requested(w, s) && Failing(w, s) && Covered(w, s) && Adapted(w, s) && Complete(w, s)
    requires Forget(s, segNo).segmentInfo != map[]
    ensures var r := HandleFail(s, segNo);
            Requested(w, r) && Failing(w, r) && Covered(w, r) && Adapted(w, r) && Complete(w, r)
  {
    var r := HandleFail(s, segNo);
    assert r.log.failures == s.log.failures + [segNo];
    assert s.log.failures != [] ==> segNo < s.failedSegNo;
  }

  lemma HandleFailKeeps(w: Setting, s: Engine, segNo: nat, aside: set<nat>)
    requires InvWith(w, s, aside, 0) && aside <= {segNo}
    requires s.outcome == Running ==> segNo in s.segmentInfo
    requires s.outcome != Running ==> aside == {}
    ensures Inv(w, HandleFail(s, segNo))
  {
    if s.IsStopping() {
    } else if s.hasFinalBlockId {
      FailureStopKeeps(w, s, aside, 0);
    } else {
      UnknownEndFailKeeps(w, s, segNo, aside);
    }
  }

  lemma UnknownEndFailKeeps(w: Setting, s: Engine, segNo: nat, aside: set<nat>)
    requires InvWith(w, s, aside, 0) && aside <= {segNo}
    requires s.outcome == Running && segNo in s.segmentInfo && !s.hasFinalBlockId
    ensures Inv(w, HandleFail(s, segNo))
  {
    assert !w.known && segNo in s.log.requests;
    assert InvWith(w, s, aside, 0);
    hide Requested, Queued, Delivered, Accounted, Failing, Covered, Retried, Adapted, Complete;
    var s1 := Forget(s, segNo);
    ForgetKeeps(w, s, segNo, aside);
    if s1.segmentInfo == map[] {
      ForgetStopKeeps(w, s, segNo, aside);
    } else {
      var s2 := CancelInFlightSegmentsGreaterThan(s1, segNo);
      CancelBeyondKeeps(w, s1, segNo);
      MarkKeeps(w, s2, segNo);
      GiveUpKeeps(w, s, segNo);
    }
  }

  lemma ForgetStopKeeps(w: Setting, s: Engine, segNo: nat, aside: set<nat>)
    requires InvWith(w, s, aside, 0) && aside <= {segNo} && s.outcome == Running
    ensures Inv(w, OnFailure(Forget(s, segNo)))
  {
  }

  // ------------------------------------------------------------------ retransmission

  /** The head of the queue is taken off; it is aside until it has been dealt with. */
  lemma PopKeeps(w: Setting, s: Engine)
    requires Inv(w, s) && s.retxQueue != []
    ensures var r := s.(retxQueue := s.retxQueue[1..]); var segNo := s.retxQueue[0];
            && InvWith(w, r, {segNo}, 0) && Retried(w, r, {}) && segNo !in r.retxQueue
            && (segNo !in s.segmentInfo ==> Inv(w, r))
            && (segNo in s.segmentInfo ==> s.segmentInfo[segNo] == InRetxQueue)
  {
    assert s.retxQueue[0] in s.retxQueue;
    PopQueued(s);
    PopRest(w, s);
    hide Requested, Delivered, Accounted, Failing, Covered, Retried, Adapted, Complete, Distinct;
  }

  lemma PopRest(w: Setting, s: Engine)
    requires s.retxQueue != [] && Requested(w, s) && Delivered(w, s) && Accounted(w, s, 0)
    requires Failing(w, s) && Covered(w, s) && Retried(w, s, {}) && Adapted(w, s) && Complete(w, s)
    ensures var r := s.(retxQueue := s.retxQueue[1..]); var segNo := s.retxQueue[0];
            && Requested(w, r) && Delivered(w, r) && Accounted(w, r, 0) && Failing(w, r) && Covered(w, r)
            && Retried(w, r, {}) && Retried(w, r, {segNo}) && Adapted(w, r) && Complete(w, r)
  {
  }

  lemma PopQueued(s: Engine)
    requires Queued(s, {}) && s.retxQueue != []
    ensures var r := s.(retxQueue := s.retxQueue[1..]); var segNo := s.retxQueue[0];
            && Queued(r, {segNo}) && segNo !in r.retxQueue
            && (segNo !in s.segmentInfo ==> Queued(r, {}))
  {
    assert s.retxQueue == [s.retxQueue[0]] + s.retxQueue[1..];
  }

  lemma ResendKeeps(w: Setting, s: Engine, segNo: nat)
    requires InvWith(w, s, {segNo}, 0) && Retried(w, s, {}) && segNo !in s.retxQueue
    requires segNo in s.segmentInfo && s.segmentInfo[segNo] == InRetxQueue
    ensures Inv(w, Resend(w.c, s, segNo))
  {
    var n := Attempt(s, segNo);
    if !MayRetry(w.c, s, segNo) {
      CountAttemptKeeps(w, s, segNo);
      HandleFailKeeps(w, s.(retxCount := s.retxCount[segNo := n]), segNo, {segNo});
    } else {
      ResendTracked(w, s, segNo);
      ResendRetried(w, s, segNo);
      ResendRest(w, s, segNo);
    }
  }

  lemma CountAttemptKeeps(w: Setting, s: Engine, segNo: nat)
    requires InvWith(w, s, {segNo}, 0) && segNo in s.segmentInfo
    ensures InvWith(w, s.(retxCount := s.retxCount[segNo := Attempt(s, segNo)]), {segNo}, 0)
  {
    hide Requested, Queued, Delivered, Accounted, Failing, Covered, Retried, Adapted, Complete;
    var r := s.(retxCount := s.retxCount[segNo := Attempt(s, segNo)]);
    CountAttemptRetried(w, s, segNo);
    CountAttemptRest(w, s, r);
    SameRequests(w, s, r);
    SameSegments(w, s, r, {segNo});
  }

  lemma CountAttemptRest(w: Setting, s: Engine, r: Engine)
    requires Accounted(w, s, 0) && Failing(w, s) && Covered(w, s) && r == s.(retxCount := r.retxCount)
    ensures Accounted(w, r, 0) && Failing(w, r) && Covered(w, r)
  {
    hide InFlight, Decreasing;
  }

  lemma CountAttemptRetried(w: Setting, s: Engine, segNo: nat)
    requires Queued(s, {segNo}) && Retried(w, s, {segNo}) && segNo in s.segmentInfo
    ensures Retried(w, s.(retxCount := s.retxCount[segNo := Attempt(s, segNo)]), {segNo})
  {
  }

  lemma ResendTracked(w: Setting, s: Engine, segNo: nat)
    requires Queued(s, {segNo}) && Delivered(w, s) && Accounted(w, s, 0) && segNo !in s.retxQueue
    requires segNo in s.segmentInfo && s.segmentInfo[segNo] == InRetxQueue
    requires MayRetry(w.c, s, segNo)
    ensures var r := Resend(w.c, s, segNo); Queued(r, {}) && Delivered(w, r) && Accounted(w, r, 0)
  {
    InFlightUpdated(s.segmentInfo, segNo, Retransmitted);
  }

  lemma ResendRetried(w: Setting, s: Engine, segNo: nat)
    requires Queued(s, {segNo}) && Retried(w, s, {}) && segNo in s.segmentInfo
    requires MayRetry(w.c, s, segNo)
    ensures Retried(w, Resend(w.c, s, segNo), {})
  {
    var r := Resend(w.c, s, segNo);
    assert r.log.resent == s.log.resent + [segNo];
    assert Attempt(s, segNo) == Count(s.log.resent, segNo) + 1;
    forall k: nat
      ensures Count(r.log.resent, k) == Count(s.log.resent, k) + if k == segNo then 1 else 0
    {
    }
  }

  lemma ResendRest(w: Setting, s: Engine, segNo: nat)
    requires s.outcome == Running && segNo in s.segmentInfo
    requires Requested(w, s) && Failing(w, s) && Covered(w, s) && Adapted(w, s) && Complete(w, s)
    requires MayRetry(w.c, s, segNo)
    ensures var r := Resend(w.c, s, segNo);
            Requested(w, r) && Failing(w, r) && Covered(w, r) && Adapted(w, r) && Complete(w, r)
  {
  }

  lemma {:induction false} ScheduleLoopKeeps(w: Setting, s: Engine, available: int)
    requires Inv(w, s)
    ensures Inv(w, ScheduleLoop(w.c, s, available))
    decreases if available > 0 then available else 0, |s.retxQueue|
  {
    hide Requested, Queued, Delivered, Accounted, Failing, Covered, Retried, Adapted, Complete;
    if available <= 0 {
    } else if s.retxQueue != [] {
      var segNo := s.retxQueue[0];
      var s1 := s.(retxQueue := s.retxQueue[1..]);
      PopKeeps(w, s);
      if segNo !in s.segmentInfo {
        ScheduleLoopKeeps(w, s1, available);
      } else {
        ResendKeeps(w, s1, segNo);
        ScheduleLoopKeeps(w, Resend(w.c, s1, segNo), available - 1);
      }
    } else {
      SendNextKeeps(w, s);
      ScheduleLoopKeeps(w, SendNext(w.c, s), available - 1);
    }
  }

  // ------------------------------------------------------------------ timeouts

  lemma EnqueueKeeps(w: Setting, s: Engine, segNo: nat, slack: nat)
    requires InvWith(w, s, {}, slack)
    requires segNo in s.segmentInfo && Flying(s.segmentInfo[segNo])
    ensures InvWith(w, Enqueue(s, segNo), {}, slack + 1)
  {
    var r := Enqueue(s, segNo);
    assert r.segmentInfo.Keys == s.segmentInfo.Keys;
    hide Requested, Queued, Delivered, Accounted, Failing, Covered, Retried, Adapted, Complete;
    EnqueueQueued(w, s, segNo);
    EnqueueAccounted(w, s, segNo, slack);
    SameRequests(w, s, r);
    SameTracked(w, s, r, {});
  }

  lemma EnqueueQueued(w: Setting, s: Engine, segNo: nat)
    requires Queued(s, {}) && segNo in s.segmentInfo && Flying(s.segmentInfo[segNo])
    requires Delivered(w, s)
    ensures Queued(Enqueue(s, segNo), {}) && Delivered(w, Enqueue(s, segNo))
  {
    assert segNo !in s.retxQueue;
  }

  lemma EnqueueAccounted(w: Setting, s: Engine, segNo: nat, slack: nat)
    requires Accounted(w, s, slack) && segNo in s.segmentInfo && Flying(s.segmentInfo[segNo])
    ensures Accounted(w, Enqueue(s, segNo), slack + 1)
  {
    InFlightUpdated(s.segmentInfo, segNo, InRetxQueue);
  }

  lemma {:induction false} ExpireTimersKeeps(w: Setting, s: Engine, expired: seq<nat>, slack: nat)
    requires InvWith(w, s, {}, slack)
    ensures InvWith(w, ExpireTimers(s, expired), {}, slack + CountExpired(s, expired))
    decreases |expired|
  {
    hide Requested, Queued, Delivered, Accounted, Failing, Covered, Retried, Adapted, Complete;
    if expired == [] {
    } else if TimerRuns(s, expired[0]) {
      EnqueueKeeps(w, s, expired[0], slack);
      ExpireTimersKeeps(w, Enqueue(s, expired[0]), expired[1..], slack + 1);
    } else {
      ExpireTimersKeeps(w, s, expired[1..], slack);
    }
  }

  lemma ExpiredWasTracked(s: Engine, expired: seq<nat>)
    requires CountExpired(s, expired) > 0
    ensures s.segmentInfo != map[]
    decreases |expired|
  {
    if TimerRuns(s, expired[0]) {
    } else {
      ExpiredWasTracked(s, expired[1..]);
    }
  }

  lemma LossEventAdapted(w: Setting, s: Engine)
    requires Sound(w) && w.c.Fits(s.window)
    requires Requested(w, s) && Adapted(w, s) && s.log.requests != []
    ensures Adapted(w, ReactToLoss(w.c, s))
  {
    var r, m := s.log.requests, s.log.lossMarks;
    if !w.c.options.disableCwa && s.highData > s.recPoint {
      var j :| 0 <= j < |r| && r[j] == s.highData;
      if m != [] {
        assert r[m[|m| - 1] - 1] < r[j];
        assert m[|m| - 1] - 1 < j;
      }
      assert r[j] <= r[|r| - 1];
    }
  }

  lemma HandleTimeoutKeeps(w: Setting, s: Engine, timeoutCount: nat)
    requires Sound(w) && w.c.Fits(s.window)
    requires InvWith(w, s, {}, timeoutCount) && (timeoutCount > 0 ==> s.log.requests != [])
    ensures Inv(w, HandleTimeout(w.c, s, timeoutCount))
  {
    if timeoutCount > 0 {
      var s1 := ReactToLoss(w.c, s);
      LossEventAdapted(w, s);
      SettleKeeps(w, s, timeoutCount);
      var s2 := s1.(nInFlight := Minus(s1.nInFlight, timeoutCount));
      hide Requested, Queued, Delivered, Accounted, Failing, Covered, Retried, Adapted, Complete;
      ScheduleLoopKeeps(w, s2, AvailableWindow(s2));
    }
  }

  lemma SettleKeeps(w: Setting, s: Engine, timeoutCount: nat)
    requires Sound(w) && w.c.Fits(s.window)
    requires InvWith(w, s, {}, timeoutCount)
    requires Adapted(w, ReactToLoss(w.c, s))
    ensures var s1 := ReactToLoss(w.c, s);
            Inv(w, s1.(nInFlight := Minus(s1.nInFlight, timeoutCount)))
  {
    hide Requested, Queued, Delivered, Accounted, Failing, Covered, Retried, Adapted, Complete, DecreaseWindow;
    var s1 := ReactToLoss(w.c, s);
    var r := s1.(nInFlight := Minus(s1.nInFlight, timeoutCount));
    LossEventRest(w, s);
    SettleAccounted(w, s, r, timeoutCount);
    SameSegments(w, s, r, {});
    SameTracked(w, s, r, {});
    SameRequests(w, s1, r);
  }

  lemma SettleAccounted(w: Setting, s: Engine, r: Engine, timeoutCount: nat)
    requires Accounted(w, s, timeoutCount) && r.nInFlight == Minus(s.nInFlight, timeoutCount)
    requires r.outcome == s.outcome && r.hasFinalBlockId == s.hasFinalBlockId && r.segmentInfo == s.segmentInfo
    ensures Accounted(w, r, 0)
  {
  }

  lemma LossEventRest(w: Setting, s: Engine)
    requires Sound(w) && w.c.Fits(s.window) && Requested(w, s) && Complete(w, s)
    ensures Requested(w, ReactToLoss(w.c, s)) && Complete(w, ReactToLoss(w.c, s))
  {
    hide DecreaseWindow, Increasing;
  }

  lemma CheckRtoKeeps(w: Setting, s: Engine, expired: seq<nat>)
    requires Sound(w) && Inv(w, s) && w.c.Fits(s.window)
    ensures Inv(w, CheckRto(w.c, s, expired))
  {
    if !s.IsStopping() {
      ExpireTimersKeeps(w, s, expired, 0);
      if CountExpired(s, expired) > 0 {
        ExpiredWasTracked(s, expired);
        var k :| k in s.segmentInfo;
        assert k in s.log.requests;
      }
      HandleTimeoutKeeps(w, ExpireTimers(s, expired), CountExpired(s, expired));
    }
  }

  lemma RequeueKeeps(w: Setting, s: Engine, segNo: nat)
    requires Sound(w) && Inv(w, s) && w.c.Fits(s.window)
    requires segNo in s.segmentInfo && Flying(s.segmentInfo[segNo])
    ensures Inv(w, HandleTimeout(w.c, Enqueue(s, segNo), 1))
  {
    assert segNo in s.log.requests;
    EnqueueKeeps(w, s, segNo, 0);
    HandleTimeoutKeeps(w, Enqueue(s, segNo), 1);
  }

  // ------------------------------------------------------------------ arriving Data

  lemma LearnKeeps(w: Setting, s: Engine)
    requires Inv(w, s) && s.outcome == Running && !s.hasFinalBlockId
    ensures Inv(w, LearnFinalBlockId(s, w.content))
  {
    hide Requested, Queued, Delivered, Accounted, Failing, Covered, Retried, Adapted, Complete;
    var s0 := s.(lastSegmentNo := w.content, hasFinalBlockId := true);
    var s1 := CancelInFlightSegmentsGreaterThan(s0, w.content);
    EndIsNews(w, s);
    SameSegments(w, s, s0, {});
    CancelBeyondKeeps(w, s0, w.content);
    LearntFailing(w, s);
    LearntRest(w, s);
    var r := LearnFinalBlockId(s, w.content);
    if r.outcome == Running {
      SameSegments(w, s1, r, {});
      SameFlight(w, s1, r);
    } else {
      StoppedKeeps(w, s1, r);
    }
  }

  lemma EndIsNews(w: Setting, s: Engine)
    requires Accounted(w, s, 0) && s.outcome == Running && !s.hasFinalBlockId && Retried(w, s, {})
    ensures !w.known
    ensures var s0 := s.(lastSegmentNo := w.content, hasFinalBlockId := true);
            Accounted(w, s0, 0) && Retried(w, s0, {})
  {
  }

  /** States that agree on what is in flight. */
  lemma SameFlight(w: Setting, s: Engine, r: Engine)
    requires Accounted(w, s, 0) && Retried(w, s, {})
    requires r.log == s.log && r.outcome == s.outcome && r.segmentInfo == s.segmentInfo
    requires r.nInFlight == s.nInFlight && r.hasFinalBlockId == s.hasFinalBlockId
    requires r.retxCount == s.retxCount
    ensures Accounted(w, r, 0) && Retried(w, r, {})
  {
    hide InFlight;
  }

  lemma StoppedKeeps(w: Setting, s: Engine, r: Engine)
    requires Queued(s, {}) && Delivered(w, s) && Retried(w, s, {})
    requires s.outcome == Running && r == OnFailure(s)
    ensures Queued(r, {}) && Delivered(w, r) && Accounted(w, r, 0) && Retried(w, r, {})
  {
  }

  lemma LearntFailing(w: Setting, s: Engine)
    requires Requested(w, s) && Failing(w, s) && Covered(w, s)
    requires s.outcome == Running && !s.hasFinalBlockId
    ensures var r := LearnFinalBlockId(s, w.content); Failing(w, r) && Covered(w, r)
  {
    var f := s.log.failures;
    if f != [] {
      assert forall i :: 0 <= i < |f| ==> f[i] >= f[|f| - 1];
    }
  }

  lemma LearntRest(w: Setting, s: Engine)
    requires Requested(w, s) && Adapted(w, s) && !w.known
    requires s.outcome == Running && !s.hasFinalBlockId
    ensures var r := LearnFinalBlockId(s, w.content); Requested(w, r) && Adapted(w, r) && Complete(w, r)
  {
  }

  ghost predicate Acceptable(w: Setting, s: Engine, segNo: nat) {
    && Sound(w) && w.c.Fits(s.window) && s.outcome == Running
    && segNo in s.segmentInfo && s.segmentInfo[segNo] != RetxReceived
    && segNo <= s.highData && segNo <= w.content
  }

  lemma BookTracked(w: Setting, s: Engine, segNo: nat, g: C.Growth)
    requires Acceptable(w, s, segNo)
    requires Queued(s, {}) && Delivered(w, s)
    ensures var r := Book(w.c, s, segNo, g); Queued(r, {}) && Delivered(w, r)
  {
    hide IncreaseWindow;
    var r := Book(w.c, s, segNo, g);
    assert segNo !in s.log.delivered && segNo in s.log.requests;
    assert r.log.delivered == s.log.delivered + [segNo];
  }

  lemma BookAccounted(w: Setting, s: Engine, segNo: nat, g: C.Growth)
    requires Acceptable(w, s, segNo)
    requires Accounted(w, s, 0)
    ensures Accounted(w, Book(w.c, s, segNo, g), 0)
  {
    hide IncreaseWindow;
    InFlightUpdated(s.segmentInfo, segNo, RetxReceived);
    InFlightRemoved(s.segmentInfo, {segNo});
  }

  lemma BookRest(w: Setting, s: Engine, segNo: nat, g: C.Growth)
    requires Acceptable(w, s, segNo)
    requires Requested(w, s) && Failing(w, s) && Covered(w, s) && Retried(w, s, {}) && Adapted(w, s)
    ensures var r := Book(w.c, s, segNo, g);
            Requested(w, r) && Failing(w, r) && Covered(w, r) && Retried(w, r, {}) && Adapted(w, r)
  {
    hide IncreaseWindow, Increasing, Decreasing, Count;
    var r := Book(w.c, s, segNo, g);
    assert forall k :: k in r.log.delivered <==> k in s.log.delivered || k == segNo;
  }

  lemma AcceptKeeps(w: Setting, s: Engine, segNo: nat, g: C.Growth)
    requires Acceptable(w, s, segNo) && Inv(w, s)
    ensures Inv(w, Accept(w.c, s, segNo, g))
  {
    hide Requested, Queued, Delivered, Accounted, Failing, Covered, Retried, Adapted, IncreaseWindow;
    var s1 := Book(w.c, s, segNo, g);
    BookTracked(w, s, segNo, g);
    BookAccounted(w, s, segNo, g);
    BookRest(w, s, segNo, g);
    if s1.hasFinalBlockId && s1.nReceived - 1 >= s1.lastSegmentNo {
      SuccessKeeps(w, s1);
    } else {
      BookKeeps(w, s, segNo, g);
      ScheduleLoopKeeps(w, s1, AvailableWindow(s1));
    }
  }

  lemma BookKeeps(w: Setting, s: Engine, segNo: nat, g: C.Growth)
    requires Acceptable(w, s, segNo) && Inv(w, s)
    requires var s1 := Book(w.c, s, segNo, g); !s1.hasFinalBlockId || s1.nReceived - 1 < s1.lastSegmentNo
    ensures Inv(w, Book(w.c, s, segNo, g))
  {
    hide Requested, Queued, Delivered, Accounted, Failing, Covered, Retried, Adapted, IncreaseWindow;
    BookTracked(w, s, segNo, g);
    BookAccounted(w, s, segNo, g);
    BookRest(w, s, segNo, g);
    DeliveredSize(w, Book(w.c, s, segNo, g));
  }

  lemma DeliveredSize(w: Setting, s: Engine)
    requires Delivered(w, s) && Accounted(w, s, 0)
    ensures |s.log.delivered| == s.nReceived - 1
    ensures w.known && s.outcome == Running ==> s.hasFinalBlockId
  {
  }

  /** When as many segments have arrived as the content has, all of it has arrived. */
  lemma SuccessKeeps(w: Setting, s: Engine)
    requires Sound(w) && s.outcome == Running && s.hasFinalBlockId && s.nReceived - 1 >= s.lastSegmentNo
    requires Requested(w, s) && Queued(s, {}) && Delivered(w, s) && Failing(w, s)
    requires Retried(w, s, {}) && Adapted(w, s)
    ensures Inv(w, Cancel(s, Succeeded))
  {
    Pigeonhole(s.log.delivered, w.content, w.c.excluded);
  }

  lemma RaiseKeeps(w: Setting, s: Engine, segNo: nat)
    requires Inv(w, s) && segNo in s.log.requests
    ensures Inv(w, RaiseHighData(s, segNo))
  {
    hide Distinct, Increasing, Decreasing, Count, InFlight;
  }

  lemma DropKeeps(w: Setting, s: Engine, segNo: nat)
    requires Inv(w, s) && segNo in s.segmentInfo && s.segmentInfo[segNo] == RetxReceived
    ensures Inv(w, s.(segmentInfo := s.segmentInfo - {segNo}))
  {
    hide Requested, Queued, Delivered, Accounted, Failing, Covered, Retried, Adapted, Complete;
    DropTracked(w, s, segNo);
    DropRest(w, s, segNo);
    SameRequests(w, s, s.(segmentInfo := s.segmentInfo - {segNo}));
  }

  lemma DropTracked(w: Setting, s: Engine, segNo: nat)
    requires Queued(s, {}) && Delivered(w, s) && Accounted(w, s, 0)
    requires segNo in s.segmentInfo && s.segmentInfo[segNo] == RetxReceived
    ensures var r := s.(segmentInfo := s.segmentInfo - {segNo});
            Queued(r, {}) && Delivered(w, r) && Accounted(w, r, 0)
  {
    hide Distinct;
    InFlightRemoved(s.segmentInfo, {segNo});
  }

  lemma DropRest(w: Setting, s: Engine, segNo: nat)
    requires Failing(w, s) && Covered(w, s) && Retried(w, s, {}) && Delivered(w, s)
    requires segNo in s.segmentInfo && s.segmentInfo[segNo] == RetxReceived
    ensures var r := s.(segmentInfo := s.segmentInfo - {segNo});
            Failing(w, r) && Covered(w, r) && Retried(w, r, {})
  {
    hide Distinct, Decreasing, Count;
  }

  lemma ReceiveKeeps(w: Setting, s: Engine, segNo: nat, g: C.Growth)
    requires Sound(w) && Inv(w, s) && w.c.Fits(s.window) && s.outcome == Running
    requires segNo in s.log.requests && segNo <= w.content
    requires w.c.options.Guarded() || segNo in s.segmentInfo
    ensures Inv(w, Receive(w.c, s, segNo, g))
  {
    hide Requested, Queued, Delivered, Accounted, Failing, Covered, Retried, Adapted, Complete;
    var s1 := RaiseHighData(s, segNo);
    RaiseKeeps(w, s, segNo);
    if segNo !in s1.segmentInfo {
    } else if s1.segmentInfo[segNo] == RetxReceived {
      DropKeeps(w, s1, segNo);
    } else {
      AcceptKeeps(w, s1, segNo, g);
    }
  }

  // ------------------------------------------------------------------ one event

  /** The assumptions on the network: answers come only for requested segments and, as the
      producer's, only for segments of the content; a Nack other than a duplicate one, or a
      lifetime expiry, reaches a segment only while an Interest of its is in flight.  Data
      may be delayed and reordered freely, and for CUBIC also duplicated freely; the AIMD and
      BIC pipelines need their Data to be for segments that are still tracked. */
  ghost predicate Allowed(w: Setting, s: Engine, e: Event) {
    s.outcome == Running ==>
      match e
      case DataArrives(segNo, final, _) =>
        && segNo in s.log.requests && segNo <= w.content
        && (final.Some? ==> final.value == w.content)
        && (w.c.options.Guarded() || segNo in s.segmentInfo)
      case NackArrives(segNo, reason) => reason == Duplicate || segNo in InFlight(s.segmentInfo)
      case LifetimeExpires(segNo) => segNo in InFlight(s.segmentInfo)
      case RtoTick(_) => true
  }

  lemma HandleDataKeeps(w: Setting, s: Engine, segNo: nat, final: Option<nat>, g: C.Growth)
    requires Sound(w) && Inv(w, s) && w.c.Fits(s.window)
    requires Allowed(w, s, DataArrives(segNo, final, g))
    ensures Inv(w, HandleData(w.c, s, segNo, final, g))
  {
    hide Requested, Queued, Delivered, Accounted, Failing, Covered, Retried, Adapted, Complete;
    if s.IsStopping() {
    } else if !s.hasFinalBlockId && final.Some? {
      LearnKeeps(w, s);
      var s1 := LearnFinalBlockId(s, w.content);
      if !s1.IsStopping() {
        ReceiveKeeps(w, s1, segNo, g);
      }
    } else {
      ReceiveKeeps(w, s, segNo, g);
    }
  }

  lemma StepKeeps(w: Setting, s: Engine, e: Event)
    requires Sound(w) && Inv(w, s) && w.c.Fits(s.window) && Allowed(w, s, e)
    ensures Inv(w, Step(w.c, s, e))
  {
    hide Requested, Queued, Delivered, Accounted, Failing, Covered, Retried, Adapted, Complete;
    match e
    case DataArrives(segNo, final, g) =>
      HandleDataKeeps(w, s, segNo, final, g);
    case NackArrives(segNo, reason) =>
      if !s.IsStopping() && reason == Congestion {
        RequeueKeeps(w, s, segNo);
      } else if !s.IsStopping() && reason == OtherReason {
        HandleFailKeeps(w, s, segNo, {});
      }
    case LifetimeExpires(segNo) =>
      if !s.IsStopping() {
        RequeueKeeps(w, s, segNo);
      }
    case RtoTick(expired) =>
      CheckRtoKeeps(w, s, expired);
  }

  // ------------------------------------------------------------------ start

  lemma StartKeeps(w: Setting, finalBlockId: Option<nat>)
    requires Sound(w)
    requires w.known == finalBlockId.Some? && (w.known ==> finalBlockId.value == w.content)
    ensures Inv(w, Start(w.c, finalBlockId))
  {
    var s := Fresh(w.c, finalBlockId).(nReceived := 1);
    assert InFlight(map[]) == {};
    assert Inv(w, s);
    SendNextKeeps(w, s);
  }
}
