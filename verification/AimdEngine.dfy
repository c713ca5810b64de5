/** The AIMD and BIC pipelines do not ask whether a segment is still tracked when its Data
    arrives.  Where every Data is for a tracked segment they have all the guarantees of
    AdaptiveTheorems; here, what becomes of exactly-once delivery where it is not. */
module AimdEngine {
  import opened WindowPolicy
  import C = CubicWindow
  import A = AimdWindow
  import opened AdaptiveSpec
  import opened Optional
  import opened Counting
  import opened AdaptiveInvariant
  import opened AdaptiveTheorems
  import opened AdaptiveProgress
  import opened AdaptiveLimits
  import opened AimdInvariant

  /** The assumptions of `Allowed` but for the last one: Data may come for any segment of the
      content that has been requested. */
  ghost predicate Answered(w: Setting, s: Engine, e: Event) {
    s.outcome == Running ==>
      match e
      case DataArrives(segNo, final, _) =>
        segNo in s.log.requests && segNo <= w.content && (final.Some? ==> final.value == w.content)
      case _ => Allowed(w, s, e)
  }

  ghost predicate AnsweredRun(w: Setting, s: Engine, events: seq<Event>)
    requires w.c.Fits(s.window)
    decreases |events|
  {
    events == [] ||
    (Answered(w, s, events[0]) && AnsweredRun(w, Step(w.c, s, events[0]), events[1..]))
  }

  /** Data for a segment that has been delivered and is no longer tracked, unless its
      FinalBlockId makes the pipeline fail. */
  predicate Repeats(s: Engine, e: Event) {
    && s.outcome == Running && e.DataArrives?
    && e.segNo !in s.segmentInfo && e.segNo in s.log.delivered
    && (!s.hasFinalBlockId && e.finalBlockId.Some? ==>
          LearnFinalBlockId(s, e.finalBlockId.value).outcome == Running)
  }

  ghost function CountRepeats(c: Config, s: Engine, events: seq<Event>): nat
    requires c.Fits(s.window)
    decreases |events|
  {
    if events == [] then 0
    else (if Repeats(s, events[0]) then 1 else 0) + CountRepeats(c, Step(c, s, events[0]), events[1..])
  }

  // ------------------------------------------------------------------ repetitions in a sequence

  /** How many elements of a sequence repeat an earlier one. */
  ghost function Excess(d: seq<nat>): nat {
    NoLarger(d);
    |d| - |Elements(d)|
  }

  lemma OneMore(d: seq<nat>, k: nat)
    ensures Excess(d + [k]) == Excess(d) + if k in d then 1 else 0
  {
    ElementsGrow(d, k);
  }

  lemma {:induction false} NoExcessIsDistinct(d: seq<nat>)
    ensures Distinct(d) <==> Excess(d) == 0
  {
    if d != [] {
      var rest, last := d[..|d| - 1], d[|d| - 1];
      assert d == rest + [last];
      NoExcessIsDistinct(rest);
      OneMore(rest, last);
      if last in rest {
        var i :| 0 <= i < |rest| && rest[i] == last;
        assert d[i] == d[|d| - 1];
      }
    }
  }

  /** Numbers up to `n` other than `x` are all there exactly when there are `n` of them. */
  lemma AllThereExactly(d: seq<nat>, n: nat, x: nat)
    requires x <= n && forall k :: k in d ==> k <= n && k != x
    ensures |d| - Excess(d) <= n
    ensures (forall k: nat :: k <= n && k != x ==> k in d) <==> |d| == n + Excess(d)
  {
    NoLarger(d);
    var all, seen := Below(n + 1) - {x}, Elements(d);
    assert seen <= all && |all| == n;
    SubsetSize(seen, all);
    if k: nat :| k <= n && k != x && k !in d {
      SubsetSize(seen, all - {k});
    } else {
      forall k | k in all
        ensures k in seen
      {
        assert k in d;
      }
      assert seen == all;
    }
  }

  // ------------------------------------------------------------------ one event

  lemma AcceptDelivers(c: Config, s: Engine, segNo: nat, g: C.Growth)
    requires segNo in s.segmentInfo && s.segmentInfo[segNo] != RetxReceived
    requires c.Fits(s.window)
    ensures Accept(c, s, segNo, g).log.delivered == s.log.delivered + [segNo]
    ensures Accept(c, s, segNo, g).nReceived == s.nReceived + 1
  {
    hide IncreaseWindow, ScheduleLoop;
  }

  /** Data is delivered and counted unless its segment is tracked as received; so it repeats a
      delivery exactly when its segment has been delivered and is no longer tracked. */
  lemma ReceiveDelivers(w: Setting, s: Engine, segNo: nat, g: C.Growth)
    requires Ordered(w, s, {}) && w.c.Fits(s.window) && s.outcome == Running && !w.c.options.Guarded()
    requires segNo in s.log.requests && segNo <= w.content
    ensures var r := Receive(w.c, s, segNo, g); var d := s.log.delivered;
            && Ordered(w, r, {})
            && r.log.delivered == d + (if segNo in s.segmentInfo && segNo in d then [] else [segNo])
            && r.nReceived == |r.log.delivered| + 1
            && Excess(r.log.delivered) == Excess(d) + if segNo !in s.segmentInfo && segNo in d then 1 else 0
  {
    var s1 := RaiseHighData(s, segNo);
    SameOrder(w, s, s1);
    OneMore(s.log.delivered, segNo);
    assert s.nReceived == |s.log.delivered| + 1;
    if segNo in s.segmentInfo && segNo in s.log.delivered {
      hide Accept;
      FewerTracked(w, s1, Receive(w.c, s, segNo, g), {});
      assert s.log.delivered + [] == s.log.delivered;
    } else {
      assert segNo in s.segmentInfo ==> s.segmentInfo[segNo] != RetxReceived;
      BookOrdered(w, s1, segNo, g);
      hide Ordered, Book, Accept, Excess;
      var s2 := if segNo in s1.segmentInfo then s1 else Subscripted(s1, segNo);
      AcceptOrdered(w, s2, segNo, g);
      AcceptDelivers(w.c, s2, segNo, g);
    }
  }

  lemma DataDelivers(w: Setting, s: Engine, segNo: nat, final: Option<nat>, g: C.Growth)
    requires Ordered(w, s, {}) && w.c.Fits(s.window) && !w.c.options.Guarded()
    requires Answered(w, s, DataArrives(segNo, final, g))
    ensures var r := HandleData(w.c, s, segNo, final, g);
            && Ordered(w, r, {})
            && Excess(r.log.delivered) ==
               Excess(s.log.delivered) + if Repeats(s, DataArrives(segNo, final, g)) then 1 else 0
  {
    hide Ordered, Receive, Excess;
    if s.outcome == Running {
      if !s.hasFinalBlockId && final.Some? {
        LearnOrdered(w, s);
        var s1 := LearnFinalBlockId(s, w.content);
        if s1.outcome == Running {
          StillTracked(s, segNo, w.content);
          ReceiveDelivers(w, s1, segNo, g);
        }
      } else {
        ReceiveDelivers(w, s, segNo, g);
      }
    }
  }

  lemma TimeoutDeliversNothing(c: Config, s: Engine, timeoutCount: nat)
    requires c.Fits(s.window)
    ensures HandleTimeout(c, s, timeoutCount).log.delivered == s.log.delivered
  {
    hide DecreaseWindow, ScheduleLoop;
  }

  lemma OthersDeliverNothing(c: Config, s: Engine, e: Event)
    requires c.Fits(s.window) && !e.DataArrives?
    ensures Step(c, s, e).log.delivered == s.log.delivered
  {
    hide HandleTimeout, HandleFail;
    match e
    case NackArrives(segNo, reason) => TimeoutDeliversNothing(c, Enqueue(s, segNo), 1);
    case LifetimeExpires(segNo) => TimeoutDeliversNothing(c, Enqueue(s, segNo), 1);
    case RtoTick(expired) => TimeoutDeliversNothing(c, ExpireTimers(s, expired), CountExpired(s, expired));
  }

  lemma StepDelivers(w: Setting, s: Engine, e: Event)
    requires Ordered(w, s, {}) && w.c.Fits(s.window) && !w.c.options.Guarded() && Answered(w, s, e)
    ensures var r := Step(w.c, s, e);
            && Ordered(w, r, {})
            && Excess(r.log.delivered) == Excess(s.log.delivered) + if Repeats(s, e) then 1 else 0
  {
    hide Ordered, Excess, HandleData, HandleNack, HandleLifetimeExpiration, CheckRto;
    match e
    case DataArrives(segNo, final, g) =>
      DataDelivers(w, s, segNo, final, g);
    case NackArrives(segNo, reason) =>
      NackOrdered(w, s, segNo, reason);
      OthersDeliverNothing(w.c, s, e);
    case LifetimeExpires(segNo) =>
      ExpiryOrdered(w, s, segNo);
      OthersDeliverNothing(w.c, s, e);
    case RtoTick(expired) =>
      CheckRtoOrdered(w, s, expired);
      OthersDeliverNothing(w.c, s, e);
  }

  // ------------------------------------------------------------------ over a run

  lemma {:induction false} RunDelivers(w: Setting, s: Engine, events: seq<Event>)
    requires Ordered(w, s, {}) && w.c.Fits(s.window) && !w.c.options.Guarded() && AnsweredRun(w, s, events)
    ensures var r := Run(w.c, s, events);
            Ordered(w, r, {}) && Excess(r.log.delivered) == Excess(s.log.delivered) + CountRepeats(w.c, s, events)
    decreases |events|
  {
    hide Ordered, Excess, Step, Answered, Repeats;
    if events != [] {
      StepDelivers(w, s, events[0]);
      RunDelivers(w, Step(w.c, s, events[0]), events[1..]);
    }
  }

  lemma Deliveries(w: Setting, s: Engine)
    requires Sound(w) && Ordered(w, s, {})
    ensures forall k :: k in s.log.delivered ==> k <= w.content && k != w.c.excluded
    ensures s.outcome == Succeeded ==> |s.log.delivered| >= w.content
  {
    hide Increasing, Distinct;
  }

  lemma StartDeliversNothing(c: Config, finalBlockId: Option<nat>)
    requires c.options.Valid()
    ensures Excess(Start(c, finalBlockId).log.delivered) == 0
  {
    NoExcessIsDistinct([]);
  }

  /** With `n` Data for a segment that had been delivered and was no longer tracked: each segment
      has been delivered once if and only if `n` is 0, and the whole content has been delivered if
      and only if there are `n` more deliveries than it has segments to deliver. */
  lemma DeliversOnceExactly(w: Setting, finalBlockId: Option<nat>, events: seq<Event>)
    requires Opens(w, finalBlockId) && !w.c.options.Guarded()
    requires AnsweredRun(w, Start(w.c, finalBlockId), events)
    ensures var d := Run(w.c, Start(w.c, finalBlockId), events).log.delivered;
            var n := CountRepeats(w.c, Start(w.c, finalBlockId), events);
            && (forall k :: k in d ==> k <= w.content && k != w.c.excluded)
            && (Distinct(d) <==> n == 0)
            && ((forall k: nat :: k <= w.content && k != w.c.excluded ==> k in d) <==> |d| == w.content + n)
  {
    StartOrdered(w, finalBlockId);
    hide Ordered, Distinct, Run, AnsweredRun, CountRepeats, Start, Excess;
    var s := Run(w.c, Start(w.c, finalBlockId), events);
    RunDelivers(w, Start(w.c, finalBlockId), events);
    StartDeliversNothing(w.c, finalBlockId);
    Deliveries(w, s);
    NoExcessIsDistinct(s.log.delivered);
    AllThereExactly(s.log.delivered, w.content, w.c.excluded);
  }

  // ------------------------------------------------------------------ success

  /** With the last segment known, as many segments are delivered as the content has and no more,
      repetitions counted. */
  ghost predicate Tallied(w: Setting, s: Engine) {
    && s.nReceived == |s.log.delivered| + 1 && s.hasFinalBlockId && s.lastSegmentNo == w.content
    && (s.outcome == Running ==> |s.log.delivered| < w.content)
    && (s.outcome == Succeeded ==> |s.log.delivered| == w.content)
  }

  lemma {:induction false} ScheduleNeverSucceeds(c: Config, s: Engine, available: int)
    requires s.outcome != Succeeded
    ensures ScheduleLoop(c, s, available).outcome != Succeeded
    decreases if available > 0 then available else 0, |s.retxQueue|
  {
    if available <= 0 {
    } else if s.retxQueue != [] {
      var segNo := s.retxQueue[0];
      var s1 := s.(retxQueue := s.retxQueue[1..]);
      if segNo !in s.segmentInfo {
        ScheduleNeverSucceeds(c, s1, available);
      } else {
        ScheduleNeverSucceeds(c, Resend(c, s1, segNo), available - 1);
      }
    } else {
      ScheduleNeverSucceeds(c, SendNext(c, s), available - 1);
    }
  }

  lemma ScheduleTallied(w: Setting, s: Engine)
    requires Tallied(w, s)
    ensures Tallied(w, SchedulePackets(w.c, s))
  {
    hide ScheduleLoop;
    if s.outcome == Running {
      ScheduleNeverSucceeds(w.c, s, AvailableWindow(s));
    } else {
      StoppedStays(w.c, s, AvailableWindow(s));
    }
  }

  lemma TimeoutTallied(w: Setting, s: Engine, timeoutCount: nat)
    requires w.c.Fits(s.window) && Tallied(w, s)
    ensures Tallied(w, HandleTimeout(w.c, s, timeoutCount))
  {
    hide DecreaseWindow, SchedulePackets;
    if timeoutCount > 0 {
      var s1 := ReactToLoss(w.c, s);
      ScheduleTallied(w, s1.(nInFlight := Minus(s1.nInFlight, timeoutCount)));
    }
  }

  lemma AcceptTallied(w: Setting, s: Engine, segNo: nat, g: C.Growth)
    requires w.c.Fits(s.window) && Tallied(w, s) && s.outcome == Running
    requires segNo in s.segmentInfo && s.segmentInfo[segNo] != RetxReceived
    ensures Tallied(w, Accept(w.c, s, segNo, g))
  {
    hide IncreaseWindow, SchedulePackets;
    var s1 := Book(w.c, s, segNo, g);
    if s1.nReceived - 1 < s1.lastSegmentNo {
      ScheduleTallied(w, s1);
    }
  }

  lemma DataTallied(w: Setting, s: Engine, segNo: nat, final: Option<nat>, g: C.Growth)
    requires w.c.Fits(s.window) && Tallied(w, s)
    ensures Tallied(w, HandleData(w.c, s, segNo, final, g))
  {
    hide Accept;
    var s1 := RaiseHighData(s, segNo);
    if s.outcome == Running && segNo in s1.segmentInfo && s1.segmentInfo[segNo] != RetxReceived {
      AcceptTallied(w, s1, segNo, g);
    } else if s.outcome == Running && segNo !in s1.segmentInfo {
      AcceptTallied(w, Subscripted(s1, segNo), segNo, g);
    }
  }

  lemma StepTallied(w: Setting, s: Engine, e: Event)
    requires w.c.Fits(s.window) && Tallied(w, s)
    ensures Tallied(w, Step(w.c, s, e))
  {
    hide HandleData, HandleTimeout;
    match e
    case DataArrives(segNo, final, g) => DataTallied(w, s, segNo, final, g);
    case NackArrives(segNo, reason) => TimeoutTallied(w, Enqueue(s, segNo), 1);
    case LifetimeExpires(segNo) => TimeoutTallied(w, Enqueue(s, segNo), 1);
    case RtoTick(expired) => TimeoutTallied(w, ExpireTimers(s, expired), CountExpired(s, expired));
  }

  lemma {:induction false} RunTallied(w: Setting, s: Engine, events: seq<Event>)
    requires w.c.Fits(s.window) && Tallied(w, s)
    ensures Tallied(w, Run(w.c, s, events))
    decreases |events|
  {
    hide Step, Tallied;
    if events != [] {
      StepTallied(w, s, events[0]);
      RunTallied(w, Step(w.c, s, events[0]), events[1..]);
    }
  }

  lemma StartTallied(w: Setting, finalBlockId: Option<nat>)
    requires Opens(w, finalBlockId) && w.known && w.content >= 1
    ensures Tallied(w, Start(w.c, finalBlockId))
  {
  }

  lemma StartOfOne(c: Config)
    requires c.options.Valid() && c.excluded == 0
    ensures var s := Start(c, Some(0)); s.outcome == Running && s.segmentInfo == map[] && s.log.requests == []
  {
  }

  /** Content of one segment: nothing is requested, so nothing is answered. */
  lemma {:induction false} NothingAnswered(w: Setting, s: Engine, events: seq<Event>)
    requires w.c.Fits(s.window) && w.content == 0 && AnsweredRun(w, s, events)
    requires s.outcome == Running && s.segmentInfo == map[] && s.log.requests == []
    ensures AllowedRun(w, s, events)
    decreases |events|
  {
    if events != [] {
      var e := events[0];
      assert [e][1..] == [] && AllowedRun(w, Step(w.c, s, e), []);
      assert AllowedRun(w, s, [e]) && Run(w.c, s, [e]) == Run(w.c, Step(w.c, s, e), []) == Step(w.c, s, e);
      OneSegmentNeverStops(w, s, [e]);
      NothingAnswered(w, s, events[1..]);
    }
  }

  lemma KnownSuccess(w: Setting, events: seq<Event>)
    requires Opens(w, Some(w.content)) && AnsweredRun(w, Start(w.c, Some(w.content)), events)
    ensures var s := Run(w.c, Start(w.c, Some(w.content)), events);
            s.outcome == Succeeded ==> |s.log.delivered| == w.content
  {
    hide Run, AnsweredRun, AllowedRun, Start;
    if w.content == 0 {
      StartOfOne(w.c);
      NothingAnswered(w, Start(w.c, Some(0)), events);
      OneSegmentHangs(w, events);
    } else {
      StartTallied(w, Some(w.content));
      RunTallied(w, Start(w.c, Some(w.content)), events);
    }
  }

  /** The success stop of AIMD and BIC means that the whole content has been delivered if and only
      if no more Data have repeated a delivery than were delivered in excess of the content; with
      the last segment known at the start, if and only if none has. */
  lemma SucceedsWithAllExactly(w: Setting, finalBlockId: Option<nat>, events: seq<Event>)
    requires Opens(w, finalBlockId) && !w.c.options.Guarded()
    requires AnsweredRun(w, Start(w.c, finalBlockId), events)
    ensures var s := Run(w.c, Start(w.c, finalBlockId), events);
            var n := CountRepeats(w.c, Start(w.c, finalBlockId), events);
            var whole := forall k: nat :: k <= w.content && k != w.c.excluded ==> k in s.log.delivered;
            s.outcome == Succeeded ==>
              && |s.log.delivered| >= w.content
              && (whole <==> n <= |s.log.delivered| - w.content)
              && (finalBlockId.Some? ==> (whole <==> n == 0))
  {
    StartOrdered(w, finalBlockId);
    hide Ordered, Distinct, Run, AnsweredRun, CountRepeats, Start, Excess;
    var s := Run(w.c, Start(w.c, finalBlockId), events);
    RunDelivers(w, Start(w.c, finalBlockId), events);
    StartDeliversNothing(w.c, finalBlockId);
    Deliveries(w, s);
    AllThereExactly(s.log.delivered, w.content, w.c.excluded);
    if finalBlockId.Some? {
      KnownSuccess(w, events);
    }
  }

  // ------------------------------------------------------------------ a duplicate

  /** The default options of the AIMD pipeline, with a finite slow start threshold. */
  const AIMD_DEFAULTS := Options(Aimd(A.Options(1.0, 1.0, 0.5, false), 1000.0), false, 3)

  /** A duplicate ends a transfer early: three segments, the last one discovered first, and the
      first one's Data arriving twice; the pipeline stops in success without the second. */
  lemma DuplicateEndsTransferEarly()
    ensures var w := Setting(Config(AIMD_DEFAULTS, 2), 2, true);
            var events := [DataArrives(0, Some(2), STEADY), DataArrives(0, Some(2), STEADY)];
            var r := Run(w.c, Start(w.c, Some(2)), events);
            && Opens(w, Some(2)) && AnsweredRun(w, Start(w.c, Some(2)), events)
            && r.outcome == Succeeded && r.log.delivered == [0, 0]
  {
    hide Start, Step, SchedulePackets;
    var w := Setting(Config(AIMD_DEFAULTS, 2), 2, true);
    var e := DataArrives(0, Some(2), STEADY);
    var s0 := Start(w.c, Some(2));
    StartOfThree(w.c, s0);
    var s1 := Step(w.c, s0, e);
    AfterOne(w.c, s0);
    AfterTwo(w.c, s1);
    var s2 := Step(w.c, s1, e);
    assert [e, e][1..] == [e] && [e][1..] == [];
    assert Run(w.c, s0, [e, e]) == Run(w.c, s1, [e]) == Run(w.c, s2, []) == s2;
    assert AnsweredRun(w, s1, [e]);
  }

  ghost predicate Opening(s: Engine) {
    && s.segmentInfo == map[0 := FirstTimeSent] && s.outcome == Running && s.hasFinalBlockId && s.lastSegmentNo == 2
    && s.nReceived == 1 && s.nInFlight == 1 && s.nextSegmentNo == 1 && s.window == AimdW(A.Window(1.0, 1000.0))
    && s.retxQueue == [] && s.log.delivered == [] && s.log.requests == [0] && !s.hasFailure
  }

  lemma StartOfThree(c: Config, s: Engine)
    requires c == Config(AIMD_DEFAULTS, 2) && s == Start(c, Some(2))
    ensures Opening(s)
  {
  }

  lemma AfterOne(c: Config, s: Engine)
    requires c == Config(AIMD_DEFAULTS, 2) && Opening(s)
    ensures var r := Step(c, s, DataArrives(0, Some(2), STEADY));
            && r.outcome == Running && r.hasFinalBlockId && r.lastSegmentNo == 2 && r.nReceived == 2
            && r.log.delivered == [0] && 0 !in r.segmentInfo && 0 in r.log.requests
  {
    hide ScheduleLoop;
    var b := Book(c, RaiseHighData(s, 0), 0, STEADY);
    assert b.segmentInfo == map[] && b.window == AimdW(A.Window(2.0, 1000.0)) && b.nInFlight == 0;
    ScheduleTwo(c, b);
    assert AvailableWindow(b) == 2;
  }

  lemma AfterTwo(c: Config, s: Engine)
    requires c == Config(AIMD_DEFAULTS, 2) && c.Fits(s.window)
    requires s.outcome == Running && s.hasFinalBlockId && s.lastSegmentNo == 2 && s.nReceived == 2
    requires s.log.delivered == [0] && 0 !in s.segmentInfo
    ensures var r := Step(c, s, DataArrives(0, Some(2), STEADY));
            r.outcome == Succeeded && r.log.delivered == [0, 0]
  {
    hide SchedulePackets, IncreaseWindow;
    AcceptDelivers(c, Subscripted(RaiseHighData(s, 0), 0), 0, STEADY);
  }
}
