/** The fixed-window pipeline over whole runs: exactly-once delivery, completeness when it
    falls quiet, and termination. */
module FixedWindowTheorems {
  import opened Optional
  import opened Counting
  import opened FixedWindowSpec
  import opened FixedWindowInvariant
  import F = DataFetcherSpec

  // ------------------------------------------------------------------ runs

  /** The pipeline after a sequence of events; every state on the way keeps the invariant. */
  ghost function Run(w: Setting, p: Pipeline, events: seq<Event>, filled: nat): (r: Pipeline)
    requires Inv(w, p, filled) && forall e :: e in events ==> Allowed(w, e)
    ensures Inv(w, r, filled)
    decreases |events|
  {
    if events == [] then p
    else
      InvIsWellBound(w, p, filled);
      StepKeeps(w, p, events[0], filled);
      Run(w, Step(w.c, p, events[0]), events[1..], filled)
  }

  /** How many pipes doRun gave a fetcher. */
  ghost function FilledAtStart(w: Setting, finalBlockId: Option<nat>): (filled: nat)
    requires Sound(w) && (finalBlockId.Some? ==> finalBlockId.value == w.content)
    ensures Inv(w, Start(w.c, finalBlockId), filled)
  {
    StartIsFilled(w, finalBlockId);
    var filled: nat :| Inv(w, Start(w.c, finalBlockId), filled);
    filled
  }

  lemma StartIsFilled(w: Setting, finalBlockId: Option<nat>)
    requires Sound(w) && (finalBlockId.Some? ==> finalBlockId.value == w.content)
    ensures exists filled: nat :: Inv(w, Start(w.c, finalBlockId), filled)
  {
    var filled := StartKeeps(w, finalBlockId);
  }

  /** A state of the pipeline, started with or without a FinalBlockId, after `events`. */
  ghost function Reached(w: Setting, finalBlockId: Option<nat>, events: seq<Event>): Pipeline
    requires Sound(w) && (finalBlockId.Some? ==> finalBlockId.value == w.content)
    requires forall e :: e in events ==> Allowed(w, e)
  {
    Run(w, Start(w.c, finalBlockId), events, FilledAtStart(w, finalBlockId))
  }

  ghost predicate Quiet(p: Pipeline) { forall k :: k in p.fetches ==> !p.Runs(k) }

  // ------------------------------------------------------------------ delivery

  /** Each segment is delivered at most once, and only segments of the content that were
      requested, never the excluded one. */
  lemma DeliveredAtMostOnce(w: Setting, finalBlockId: Option<nat>, events: seq<Event>)
    requires Sound(w) && (finalBlockId.Some? ==> finalBlockId.value == w.content)
    requires forall e :: e in events ==> Allowed(w, e)
    ensures var p := Reached(w, finalBlockId, events);
            Distinct(p.delivered) && forall k :: k in p.delivered ==> k <= w.content && k != w.c.excluded
  {
    var p := Reached(w, finalBlockId, events);
    assert Inv(w, p, FilledAtStart(w, finalBlockId));
  }

  /** A pending failure means that the last segment is unknown and a fetcher still runs. */
  lemma FailurePendsOnlyWhileUnknown(w: Setting, finalBlockId: Option<nat>, events: seq<Event>)
    requires Sound(w) && (finalBlockId.Some? ==> finalBlockId.value == w.content)
    requires forall e :: e in events ==> Allowed(w, e)
    ensures var p := Reached(w, finalBlockId, events);
            !p.isStopping && p.hasFailure ==> !p.hasFinalBlockId && !Quiet(p)
  {
    var p := Reached(w, finalBlockId, events);
    assert Inv(w, p, FilledAtStart(w, finalBlockId));
  }

  lemma QuietIsExhausted(w: Setting, p: Pipeline, filled: nat)
    requires Sound(w) && Inv(w, p, filled) && !p.isStopping && Quiet(p)
    ensures !p.hasFailure && Exhausted(w, p)
  {
    if filled == w.c.pipelineSize {
      assert HoldsOwn(p, 0);
      assert !p.Runs(p.slots[0].value);
    }
  }

  /** When no fetcher runs and the pipeline has not failed, the last segment is known, nothing
      has failed, and exactly the segments other than the excluded one have been delivered. */
  lemma QuietMeansComplete(w: Setting, finalBlockId: Option<nat>, events: seq<Event>)
    requires Sound(w) && (finalBlockId.Some? ==> finalBlockId.value == w.content)
    requires forall e :: e in events ==> Allowed(w, e)
    ensures var p := Reached(w, finalBlockId, events);
            !p.isStopping && Quiet(p) ==>
              && p.hasFinalBlockId && p.lastSegmentNo == w.content && !p.hasFailure
              && forall k: nat :: k in p.delivered <==> k <= w.content && k != w.c.excluded
  {
    var p := Reached(w, finalBlockId, events);
    var filled := FilledAtStart(w, finalBlockId);
    assert Inv(w, p, filled);
    if !p.isStopping && Quiet(p) {
      QuietIsExhausted(w, p, filled);
      forall k: nat | k <= w.content && k != w.c.excluded
        ensures k in p.delivered
      {
        assert k < p.nextSegmentNo;
        assert k in p.fetches;
      }
    }
  }

  lemma {:induction false} FollowingStop(p: Pipeline, failed: nat, i: nat)
    requires i <= |p.slots|
    ensures var r := StopFollowing(p, failed, i);
            && Cancels(p, r)
            && (forall j :: i <= j < |p.slots| && p.slots[j].Some? && p.slots[j].value > failed ==>
                  !r.Runs(p.slots[j].value))
            && (forall k :: k in p.fetches && k <= failed ==> r.Runs(k) == p.Runs(k))
    decreases |p.slots| - i
  {
    if i < |p.slots| {
      if p.slots[i].Some? && p.slots[i].value > failed {
        CancelFetcherShrinks(p, p.slots[i].value);
        FollowingStop(CancelFetcher(p, p.slots[i].value), failed, i + 1);
      } else {
        FollowingStop(p, failed, i + 1);
      }
    }
  }

  /** The loop of handleFail, when running fetchers are in their slots. */
  lemma LoopStopsFollowing(p: Pipeline, failed: nat)
    requires forall k :: k in p.fetches && p.Runs(k) ==>
               p.fetches[k].pipeNo < |p.slots| && p.slots[p.fetches[k].pipeNo] == Some(k)
    ensures var r := StopFollowing(p, failed, 0);
            && (forall k :: k in r.fetches && r.Runs(k) ==> k <= failed && k in p.fetches && p.Runs(k))
            && (OthersRun(r, failed) <==> exists k :: k in p.fetches && k <= failed && p.Runs(k))
  {
    hide StopFollowing, F.Cancel;
    FollowingStop(p, failed, 0);
    var r := StopFollowing(p, failed, 0);
    forall k | k in r.fetches && r.Runs(k)
      ensures k <= failed && k in p.fetches && p.Runs(k)
    {
      assert p.Runs(k) && p.slots[p.fetches[k].pipeNo] == Some(k);
    }
    if k :| k in p.fetches && k <= failed && p.Runs(k) {
      var i := p.fetches[k].pipeNo;
      assert p.slots[i] == Some(k) && r.slots[i] == Some(k) && r.Runs(k);
    }
  }

  /** While the last segment is unknown, giving up on a segment stops everything after it, and
      fails the pipeline at once if and only if nothing before it is being fetched any more. */
  lemma FailureStopsFollowing(w: Setting, p: Pipeline, segNo: nat, f: F.Fetcher, filled: nat)
    requires Inv(w, p, filled) && segNo in p.fetches && p.Runs(segNo) && !f.IsRunning() && !p.hasFinalBlockId
    requires var p1, pipeNo := SetFetcher(p, segNo, f), p.fetches[segNo].pipeNo;
             p1.isStopping || (pipeNo < |p1.slots| && p1.slots[pipeNo].Some?)
    ensures var r := HandleFail(SetFetcher(p, segNo, f), p.fetches[segNo].pipeNo);
            && (forall k :: k in r.fetches && r.Runs(k) ==> k < segNo)
            && (r.isStopping <==> forall k :: k in p.fetches && k < segNo ==> !p.Runs(k))
  {
    hide Fetched, Delivered, OnItsWay, Busy, Pending, HoldsOwn, StopFollowing, OthersRun, CancelSlots, F.Cancel;
    FailKeeps(w, p, segNo, f, filled);
    assert !p.isStopping && p.slots[p.fetches[segNo].pipeNo] == Some(segNo);
    var p1 := SetFetcher(p, segNo, f);
    assert forall k :: k in p.fetches ==> p1.Runs(k) == (p.Runs(k) && k != segNo);
    LoopStopsFollowing(p1, segNo);
    var p2 := StopFollowing(p1, segNo, 0);
    assert forall k :: p2.(hasFailure := true).Runs(k) == p2.Runs(k);
  }

  // ------------------------------------------------------------------ termination

  ghost predicate Finite(c: Config) { c.limits.maxNackRetries >= 0 && c.limits.maxTimeoutRetries >= 0 }

  /** The Interests a new fetcher may send. */
  function FullBudget(c: Config): nat
    requires c.limits.maxNackRetries >= 0 && c.limits.maxTimeoutRetries >= 0
  {
    1 + c.limits.maxNackRetries + c.limits.maxTimeoutRetries
  }

  /** The answers a fetcher may still take in before it stops. */
  function Budget(c: Config, f: F.Fetcher): nat {
    if !f.IsRunning() then 0
    else 1 + Remaining(c.limits.maxNackRetries, f.nNacks) + Remaining(c.limits.maxTimeoutRetries, f.nTimeouts)
  }

  function Remaining(limit: int, n: nat): nat { if limit > n then limit - n else 0 }

  /** The budgets of the fetchers for segments below `n`. */
  function Budgets(c: Config, p: Pipeline, n: nat): nat {
    if n == 0 then 0
    else Budgets(c, p, n - 1) + if n - 1 in p.fetches then Budget(c, p.fetches[n - 1].fetcher) else 0
  }

  /** Segments still to be requested, each worth a full budget and one more, plus what the
      running fetchers have left. */
  function Measure(c: Config, p: Pipeline): nat
    requires c.limits.maxNackRetries >= 0 && c.limits.maxTimeoutRetries >= 0
  {
    if p.isStopping then 0
    else Minus(p.lastSegmentNo + 1, p.nextSegmentNo) * (FullBudget(c) + 1) + Budgets(c, p, p.nextSegmentNo)
  }

  /** Pipelines with the same fetchers below `n`. */
  lemma {:induction false} SameBudgets(c: Config, p: Pipeline, r: Pipeline, n: nat)
    requires forall k: nat :: k < n ==> (k in p.fetches <==> k in r.fetches)
    requires forall k: nat :: k < n && k in p.fetches ==>
               Budget(c, p.fetches[k].fetcher) == Budget(c, r.fetches[k].fetcher)
    ensures Budgets(c, p, n) == Budgets(c, r, n)
  {
    if n > 0 {
      SameBudgets(c, p, r, n - 1);
    }
  }

  lemma {:induction false} OneBudgetChanges(c: Config, p: Pipeline, segNo: nat, f: F.Fetcher, n: nat)
    requires segNo in p.fetches
    ensures Budgets(c, SetFetcher(p, segNo, f), n) ==
            Budgets(c, p, n) + if segNo < n then Budget(c, f) - Budget(c, p.fetches[segNo].fetcher) else 0
  {
    if n > 0 {
      OneBudgetChanges(c, p, segNo, f, n - 1);
    }
  }

  lemma FetchNextBudgets(w: Setting, p: Pipeline, pipeNo: nat)
    requires Finite(w.c) && Fetched(w, p) && !p.isStopping && !p.hasFailure && pipeNo < |p.slots|
    ensures var r := FetchNextSegment(w.c, p, pipeNo);
            Budgets(w.c, r, r.nextSegmentNo) ==
            Budgets(w.c, p, p.nextSegmentNo) + if CanFetch(w.c, p) then FullBudget(w.c) else 0
  {
    var segNo, n := NextSegment(w.c, p), p.nextSegmentNo;
    var r := FetchNextSegment(w.c, p, pipeNo);
    SameBudgets(w.c, p, r, n);
    assert forall k: nat :: n <= k < segNo ==> k !in p.fetches && k !in r.fetches;
    assert Budgets(w.c, r, segNo) == Budgets(w.c, p, n);
    if CanFetch(w.c, p) {
      assert Budget(w.c, F.Fetch()) == FullBudget(w.c);
    }
  }

  lemma OneFewer(before: nat, after: nat, worth: nat)
    requires after <= before
    ensures after * worth + (if after < before then worth else 0) <= before * worth
    decreases before
  {
    if after < before {
      OneFewer(before - 1, after, worth);
      assert before * worth == (before - 1) * worth + worth;
    }
  }

  /** Fetching turns one segment's worth of the measure into the budget of its fetcher. */
  lemma FetchNextMeasure(w: Setting, p: Pipeline, pipeNo: nat)
    requires Finite(w.c) && Fetched(w, p) && p.hasFinalBlockId && !p.isStopping && !p.hasFailure
    requires pipeNo < |p.slots|
    ensures Measure(w.c, FetchNextSegment(w.c, p, pipeNo)) <= Measure(w.c, p)
  {
    hide Fetched, Budgets;
    var r := FetchNextSegment(w.c, p, pipeNo);
    FetchNextBudgets(w, p, pipeNo);
    OneFewer(Minus(p.lastSegmentNo + 1, p.nextSegmentNo), Minus(r.lastSegmentNo + 1, r.nextSegmentNo),
             FullBudget(w.c) + 1);
  }

  ghost predicate Handled(p: Pipeline, e: Event) { !e.WakeFor? && e.segNo in p.fetches && p.Runs(e.segNo) }

  /** Passing on Data uses up the budget of the fetcher. */
  lemma DeliverMeasure(w: Setting, p: Pipeline, segNo: nat, f: F.Fetcher)
    requires Finite(w.c) && segNo in p.fetches && segNo < p.nextSegmentNo && p.Runs(segNo) && !f.IsRunning()
    requires !p.isStopping
    ensures Measure(w.c, Deliver(p, segNo, f)) < Measure(w.c, p)
  {
    OneBudgetChanges(w.c, p, segNo, f, p.nextSegmentNo);
    SameBudgets(w.c, SetFetcher(p, segNo, f), Deliver(p, segNo, f), p.nextSegmentNo);
    assert Budget(w.c, f) == 0 < Budget(w.c, p.fetches[segNo].fetcher);
    hide Budgets, Budget;
  }

  lemma DataMeasure(w: Setting, p: Pipeline, segNo: nat, final: Option<nat>, filled: nat)
    requires Finite(w.c) && Inv(w, p, filled) && WellBound(w.c, p) && p.hasFinalBlockId
    requires segNo in p.fetches && p.Runs(segNo) && segNo <= w.content
    ensures Measure(w.c, Step(w.c, p, DataFor(segNo, final))) < Measure(w.c, p)
  {
    var f := F.HandleData(p.fetches[segNo].fetcher).fetcher;
    assert segNo < p.nextSegmentNo && !p.isStopping && !p.hasFailure;
    DeliverKeeps(w, p, segNo, f, filled);
    hide Slotted, Delivered, Quenched, OnItsWay, Busy, Pending, Measure, FetchNextSegment;
    DeliverMeasure(w, p, segNo, f);
    FetchNextMeasure(w, Deliver(p, segNo, f), p.fetches[segNo].pipeNo);
  }

  lemma AnswerMeasure(w: Setting, p: Pipeline, segNo: nat, r: F.Reaction, filled: nat)
    requires Finite(w.c) && Inv(w, p, filled) && WellBound(w.c, p) && p.hasFinalBlockId
    requires segNo in p.fetches && p.Runs(segNo)
    requires r.report == F.GaveUp ==> !r.fetcher.IsRunning()
    requires r.report == F.Nothing ==> Budget(w.c, r.fetcher) < Budget(w.c, p.fetches[segNo].fetcher)
    requires r.report != F.GotData
    ensures Measure(w.c, Dispatch(w.c, p, segNo, r, None)) < Measure(w.c, p)
  {
    assert segNo < p.nextSegmentNo && segNo <= p.lastSegmentNo && !p.isStopping;
    assert p.slots[p.fetches[segNo].pipeNo] == Some(segNo);
    hide Inv, WellBound, Measure, Budget, HandleFail;
    if r.report == F.GaveUp {
      GivingUpMeasure(w.c, p, segNo, r.fetcher);
    } else {
      RetryMeasure(w.c, p, segNo, r.fetcher);
    }
  }

  lemma RetryMeasure(c: Config, p: Pipeline, segNo: nat, f: F.Fetcher)
    requires Finite(c) && segNo in p.fetches && segNo < p.nextSegmentNo && !p.isStopping
    requires Budget(c, f) < Budget(c, p.fetches[segNo].fetcher)
    ensures Measure(c, SetFetcher(p, segNo, f)) < Measure(c, p)
  {
    OneBudgetChanges(c, p, segNo, f, p.nextSegmentNo);
    hide Budgets, Budget;
  }

  lemma GivingUpMeasure(c: Config, p: Pipeline, segNo: nat, f: F.Fetcher)
    requires Finite(c) && segNo in p.fetches && segNo < p.nextSegmentNo && p.Runs(segNo) && !f.IsRunning()
    requires !p.isStopping && p.hasFinalBlockId && segNo <= p.lastSegmentNo
    requires p.fetches[segNo].pipeNo < |p.slots| && p.slots[p.fetches[segNo].pipeNo] == Some(segNo)
    ensures Measure(c, HandleFail(SetFetcher(p, segNo, f), p.fetches[segNo].pipeNo)) < Measure(c, p)
  {
    hide Budgets, HandleFail, SetFetcher;
    StopsAtOnce(p, segNo, f);
    RunningHasBudget(c, p, segNo, p.nextSegmentNo);
  }

  lemma StopsAtOnce(p: Pipeline, segNo: nat, f: F.Fetcher)
    requires segNo in p.fetches && !p.isStopping && p.hasFinalBlockId && segNo <= p.lastSegmentNo
    requires p.fetches[segNo].pipeNo < |p.slots| && p.slots[p.fetches[segNo].pipeNo] == Some(segNo)
    ensures HandleFail(SetFetcher(p, segNo, f), p.fetches[segNo].pipeNo).isStopping
  {
  }

  lemma IdleMeasure(w: Setting, p: Pipeline, segNo: nat, f: F.Fetcher)
    requires Finite(w.c) && segNo in p.fetches
    requires Budget(w.c, f) == Budget(w.c, p.fetches[segNo].fetcher)
    ensures Measure(w.c, SetFetcher(p, segNo, f)) == Measure(w.c, p)
  {
    OneBudgetChanges(w.c, p, segNo, f, p.nextSegmentNo);
  }

  /** Once the last segment is known, every answer that a running fetcher takes in brings the
      pipeline strictly closer to its end. */
  lemma StepMeasure(w: Setting, p: Pipeline, e: Event, filled: nat)
    requires Finite(w.c) && Inv(w, p, filled) && Within(w.c, p) && WellBound(w.c, p)
    requires p.hasFinalBlockId && Allowed(w, e)
    ensures Measure(w.c, Step(w.c, p, e)) <= Measure(w.c, p)
    ensures Handled(p, e) ==> Measure(w.c, Step(w.c, p, e)) < Measure(w.c, p)
  {
    hide Inv, WellBound, Measure, HandleData, HandleFail;
    if e.segNo in p.fetches {
      var f := p.fetches[e.segNo].fetcher;
      match e
      case DataFor(segNo, final) =>
        if p.Runs(segNo) {
          DataMeasure(w, p, segNo, final, filled);
        } else {
          IdleMeasure(w, p, segNo, f);
        }
      case NackFor(segNo, reason) =>
        if p.Runs(segNo) {
          AnswerMeasure(w, p, segNo, F.HandleNack(w.c.limits, f, reason), filled);
        } else {
          IdleMeasure(w, p, segNo, f);
        }
      case TimeoutFor(segNo) =>
        if p.Runs(segNo) {
          AnswerMeasure(w, p, segNo, F.HandleTimeout(w.c.limits, f), filled);
        } else {
          IdleMeasure(w, p, segNo, f);
        }
      case WakeFor(segNo) =>
        IdleMeasure(w, p, segNo, F.Wake(f));
    }
  }

  /** A running fetcher is within its limits. */
  ghost predicate Within(c: Config, p: Pipeline) {
    forall k :: k in p.fetches && p.Runs(k) ==>
      p.fetches[k].fetcher.nNacks <= c.limits.maxNackRetries
      && p.fetches[k].fetcher.nTimeouts <= c.limits.maxTimeoutRetries
  }

  lemma FetchNextWithin(w: Setting, p: Pipeline, pipeNo: nat, filled: nat)
    requires Finite(w.c) && Core(w, p, filled) && Within(w.c, p) && pipeNo < |p.slots|
    ensures Within(w.c, FetchNextSegment(w.c, p, pipeNo))
  {
    if !p.isStopping && p.hasFailure {
      OnFailureKeeps(w, p, filled);
    }
  }

  lemma DataWithin(w: Setting, p: Pipeline, segNo: nat, final: Option<nat>, filled: nat)
    requires Finite(w.c) && Inv(w, p, filled) && Within(w.c, p) && WellBound(w.c, p)
    requires segNo in p.fetches && p.Runs(segNo) && Allowed(w, DataFor(segNo, final))
    ensures Within(w.c, Step(w.c, p, DataFor(segNo, final)))
  {
    var f := F.HandleData(p.fetches[segNo].fetcher).fetcher;
    var pipeNo := p.fetches[segNo].pipeNo;
    var p2 := Deliver(p, segNo, f);
    DeliverKeeps(w, p, segNo, f, filled);
    assert Within(w.c, p2);
    if !p.hasFinalBlockId && final.Some? {
      LearnKeeps(w, p2, pipeNo, filled);
      LearnWithin(w, p2, filled);
      var p3 := SettleSlots(p2.(lastSegmentNo := w.content, hasFinalBlockId := true), 0);
      if !p3.isStopping {
        FetchNextWithin(w, p3, pipeNo, filled);
      }
    } else {
      FetchNextWithin(w, p2, pipeNo, filled);
    }
  }

  lemma LearnWithin(w: Setting, p: Pipeline, filled: nat)
    requires Core(w, p, filled) && Within(w.c, p) && !p.isStopping && !p.hasFinalBlockId
    ensures Within(w.c, SettleSlots(p.(lastSegmentNo := w.content, hasFinalBlockId := true), 0))
  {
    var p1 := p.(lastSegmentNo := w.content, hasFinalBlockId := true);
    assert forall k :: p1.Runs(k) == p.Runs(k);
    SettleKeeps(w, p1, 0, filled);
  }

  lemma FailWithin(w: Setting, p: Pipeline, segNo: nat, f: F.Fetcher, filled: nat)
    requires Inv(w, p, filled) && Within(w.c, p) && segNo in p.fetches && p.Runs(segNo) && !f.IsRunning()
    requires WellBound(w.c, p)
    ensures Within(w.c, HandleFail(SetFetcher(p, segNo, f), p.fetches[segNo].pipeNo))
  {
    hide Fetched, Delivered, OnItsWay, Busy, Pending, HoldsOwn, Exhausted, StopFollowing, OthersRun, CancelSlots;
    FailKeeps(w, p, segNo, f, filled);
    var p1 := SetFetcher(p, segNo, f);
    assert !p.isStopping;
    StopFollowingShrinks(p1, segNo, 0);
  }

  lemma StepWithin(w: Setting, p: Pipeline, e: Event, filled: nat)
    requires Finite(w.c) && Inv(w, p, filled) && Within(w.c, p) && WellBound(w.c, p) && Allowed(w, e)
    ensures Within(w.c, Step(w.c, p, e))
  {
    hide Inv, HandleData, HandleFail, WellBound;
    if e.segNo in p.fetches && p.Runs(e.segNo) {
      var segNo, f := e.segNo, p.fetches[e.segNo].fetcher;
      match e
      case DataFor(_, final) => DataWithin(w, p, segNo, final, filled);
      case NackFor(_, reason) =>
        var r := F.HandleNack(w.c.limits, f, reason);
        if r.report == F.GaveUp {
          FailWithin(w, p, segNo, r.fetcher, filled);
        }
      case TimeoutFor(_) =>
        var r := F.HandleTimeout(w.c.limits, f);
        if r.report == F.GaveUp {
          FailWithin(w, p, segNo, r.fetcher, filled);
        }
      case WakeFor(_) =>
    }
  }

  /** How many answers running fetchers take in during the run. */
  ghost function CountHandled(w: Setting, p: Pipeline, events: seq<Event>, filled: nat): nat
    requires Inv(w, p, filled) && forall e :: e in events ==> Allowed(w, e)
    decreases |events|
  {
    if events == [] then 0
    else
      InvIsWellBound(w, p, filled);
      StepKeeps(w, p, events[0], filled);
      (if Handled(p, events[0]) then 1 else 0)
      + CountHandled(w, Step(w.c, p, events[0]), events[1..], filled)
  }

  lemma StepKeepsEnd(w: Setting, p: Pipeline, e: Event)
    requires WellBound(w.c, p) && p.hasFinalBlockId
    ensures Step(w.c, p, e).hasFinalBlockId
  {
    hide F.HandleNack, F.HandleTimeout, F.Cancel, CancelSlots;
  }

  lemma {:induction false} RunIsFinite(w: Setting, p: Pipeline, events: seq<Event>, filled: nat)
    requires Finite(w.c) && Inv(w, p, filled) && Within(w.c, p) && p.hasFinalBlockId
    requires forall e :: e in events ==> Allowed(w, e)
    ensures CountHandled(w, p, events, filled) + Measure(w.c, Run(w, p, events, filled)) <= Measure(w.c, p)
    decreases |events|
  {
    if events != [] {
      InvIsWellBound(w, p, filled);
      hide Inv, WellBound, Measure, Step, Within;
      StepKeeps(w, p, events[0], filled);
      StepWithin(w, p, events[0], filled);
      StepMeasure(w, p, events[0], filled);
      StepKeepsEnd(w, p, events[0]);
      RunIsFinite(w, Step(w.c, p, events[0]), events[1..], filled);
    }
  }

  lemma {:induction false} FillMeasure(w: Setting, p: Pipeline, i: nat)
    requires Finite(w.c) && i <= w.c.pipelineSize == |p.slots| && !p.isStopping && !p.hasFailure
    requires Fetched(w, p) && p.hasFinalBlockId && Within(w.c, p)
    ensures var r := FillPipes(w.c, p, i);
            Measure(w.c, r) <= Measure(w.c, p) && Within(w.c, r) && r.hasFinalBlockId
    decreases w.c.pipelineSize - i
  {
    hide Measure;
    if i < w.c.pipelineSize {
      FetchNextMeasure(w, p, i);
      if CanFetch(w.c, p) {
        FillMeasure(w, FetchNextSegment(w.c, p, i), i + 1);
      }
    }
  }

  lemma {:induction false} RunningHasBudget(c: Config, p: Pipeline, k: nat, n: nat)
    requires k < n && k in p.fetches && p.Runs(k)
    ensures Budgets(c, p, n) >= 1
  {
    if k < n - 1 {
      RunningHasBudget(c, p, k, n - 1);
    }
  }

  /** Nothing is running once the measure has been used up. */
  lemma UsedUpIsQuiet(w: Setting, p: Pipeline, filled: nat)
    requires Finite(w.c) && Inv(w, p, filled) && Measure(w.c, p) == 0
    ensures Quiet(p)
  {
    hide Slotted, Delivered, OnItsWay, Busy, Pending, Budgets;
    forall k | k in p.fetches
      ensures !p.Runs(k)
    {
      if p.Runs(k) {
        RunningHasBudget(w.c, p, k, p.nextSegmentNo);
        assert false;
      }
    }
  }

  /** With finite retry limits and the last segment known at the start, no run takes in more
      than (last + 1) * (2 + maxNackRetries + maxTimeoutRetries) answers, and after that many
      Data, Nacks and timeouts nothing is running any more. */
  lemma FixedWindowTerminates(w: Setting, events: seq<Event>)
    requires Sound(w) && Finite(w.c) && forall e :: e in events ==> Allowed(w, e)
    ensures var handled := CountHandled(w, Start(w.c, Some(w.content)), events, FilledAtStart(w, Some(w.content)));
            var bound := (w.content + 1) * (FullBudget(w.c) + 1);
            handled <= bound && (handled == bound ==> Quiet(Reached(w, Some(w.content), events)))
  {
    var p, filled := Fresh(w.c, Some(w.content)), FilledAtStart(w, Some(w.content));
    FillMeasure(w, p, 0);
    RunIsFinite(w, Start(w.c, Some(w.content)), events, filled);
    hide Inv, Quiet, CountHandled, Run;
    if Measure(w.c, Reached(w, Some(w.content), events)) == 0 {
      UsedUpIsQuiet(w, Reached(w, Some(w.content), events), filled);
    }
  }
}
