/** When Data stops the fixed-window pipeline: exactly when a failure is pending, whether or
    not the failed segment belongs to the content. */
module FixedWindowFailures {
  import opened Network
  import opened Optional
  import opened FixedWindowSpec
  import opened FixedWindowInvariant
  import opened FixedWindowTheorems
  import F = DataFetcherSpec

  /** No fetcher has failed. */
  ghost predicate Blameless(p: Pipeline) { forall k :: k in p.fetches ==> !p.fetches[k].fetcher.hasError }

  /** A fetcher has failed only where a failure is pending. */
  ghost predicate Unblamed(p: Pipeline) { !p.isStopping && !p.hasFailure ==> Blameless(p) }

  /** The loop of handleData finds no fault with the fetchers it passes. */
  lemma {:induction false} SettleBlameless(p: Pipeline, i: nat)
    requires i <= |p.slots| && !p.isStopping && Blameless(p)
    ensures !SettleSlots(p, i).isStopping && Blameless(SettleSlots(p, i))
    decreases |p.slots| - i
  {
    if i == |p.slots| {
    } else if p.slots[i].None? || p.slots[i].value !in p.fetches {
      SettleBlameless(p, i + 1);
    } else if p.slots[i].value > p.lastSegmentNo {
      SettleBlameless(CancelFetcher(p, p.slots[i].value), i + 1);
    } else {
      SettleBlameless(p, i + 1);
    }
  }

  lemma FetchNextBlameless(c: Config, p: Pipeline, pipeNo: nat)
    requires pipeNo < |p.slots| && !p.isStopping && !p.hasFailure && Blameless(p)
    ensures var r := FetchNextSegment(c, p, pipeNo); !r.isStopping && Blameless(r)
  {
  }

  /** Data passes through a pipeline without a failure. */
  lemma DataPasses(w: Setting, p: Pipeline, segNo: nat, final: Option<nat>)
    requires WellBound(w.c, p) && !p.isStopping && !p.hasFailure && Blameless(p)
    requires segNo in p.fetches && p.Runs(segNo)
    ensures var r := Step(w.c, p, DataFor(segNo, final)); !r.isStopping && Blameless(r)
  {
    hide SettleSlots, FetchNextSegment;
    var pipeNo := p.fetches[segNo].pipeNo;
    var p1 := Deliver(p, segNo, F.HandleData(p.fetches[segNo].fetcher).fetcher);
    if !p.hasFinalBlockId && final.Some? {
      var p2 := p1.(lastSegmentNo := final.value, hasFinalBlockId := true);
      SettleBlameless(p2, 0);
      FetchNextBlameless(w.c, SettleSlots(p2, 0), pipeNo);
    } else {
      FetchNextBlameless(w.c, p1, pipeNo);
    }
  }

  /** Data finds a pending failure, learns the end or not, and stops the pipeline. */
  lemma DataFindsFailure(w: Setting, p: Pipeline, filled: nat, segNo: nat, final: Option<nat>)
    requires Inv(w, p, filled) && WellBound(w.c, p) && p.hasFailure && !p.isStopping
    requires segNo in p.fetches && p.Runs(segNo) && Allowed(w, DataFor(segNo, final))
    ensures Step(w.c, p, DataFor(segNo, final)).isStopping
  {
    var f := F.HandleData(p.fetches[segNo].fetcher).fetcher;
    DeliverKeeps(w, p, segNo, f, filled);
    var p2 := Deliver(p, segNo, f);
    if final.Some? {
      LearnKeeps(w, p2, p.fetches[segNo].pipeNo, filled);
    }
  }

  /** Giving up on a segment stops the pipeline or leaves a failure pending. */
  lemma FailUnblamed(w: Setting, p: Pipeline, segNo: nat, f: F.Fetcher, filled: nat)
    requires Inv(w, p, filled) && WellBound(w.c, p) && segNo in p.fetches && p.Runs(segNo)
    ensures Unblamed(HandleFail(SetFetcher(p, segNo, f), p.fetches[segNo].pipeNo))
  {
    assert !p.isStopping && p.slots[p.fetches[segNo].pipeNo] == Some(segNo);
    assert p.hasFinalBlockId ==> segNo <= p.lastSegmentNo;
    hide Inv, StopFollowing, OthersRun, CancelSlots, Blameless;
  }

  lemma RetryUnblamed(p: Pipeline, segNo: nat, f: F.Fetcher)
    requires Unblamed(p) && segNo in p.fetches && f.hasError == p.fetches[segNo].fetcher.hasError
    ensures Unblamed(SetFetcher(p, segNo, f))
  {
  }

  lemma AnswerUnblamed(w: Setting, p: Pipeline, segNo: nat, r: F.Reaction, filled: nat)
    requires Inv(w, p, filled) && WellBound(w.c, p) && Unblamed(p) && segNo in p.fetches
    requires r.report == F.GaveUp ==> p.Runs(segNo)
    requires r.report != F.GotData
    requires r.report == F.Nothing ==> r.fetcher.hasError == p.fetches[segNo].fetcher.hasError
    ensures Unblamed(Dispatch(w.c, p, segNo, r, None))
  {
    hide Inv, Unblamed, HandleFail, SetFetcher;
    if r.report == F.GaveUp {
      FailUnblamed(w, p, segNo, r.fetcher, filled);
    } else {
      RetryUnblamed(p, segNo, r.fetcher);
    }
  }

  lemma DataUnblamed(w: Setting, p: Pipeline, segNo: nat, final: Option<nat>, filled: nat)
    requires Inv(w, p, filled) && WellBound(w.c, p) && Unblamed(p) && Allowed(w, DataFor(segNo, final))
    requires segNo in p.fetches
    ensures Unblamed(Step(w.c, p, DataFor(segNo, final)))
  {
    StoppedStays(w, p, filled);
    hide Inv, WellBound, HandleData;
    if !p.Runs(segNo) {
      RetryUnblamed(p, segNo, p.fetches[segNo].fetcher);
    } else if p.hasFailure {
      DataFindsFailure(w, p, filled, segNo, final);
    } else {
      DataPasses(w, p, segNo, final);
    }
  }

  lemma StepUnblamed(w: Setting, p: Pipeline, e: Event, filled: nat)
    requires Inv(w, p, filled) && WellBound(w.c, p) && Allowed(w, e) && Unblamed(p)
    ensures Unblamed(Step(w.c, p, e))
  {
    hide Inv, Unblamed, WellBound, Dispatch, SetFetcher;
    if e.segNo in p.fetches {
      var segNo, f := e.segNo, p.fetches[e.segNo].fetcher;
      match e
      case DataFor(_, final) => DataUnblamed(w, p, segNo, final, filled);
      case NackFor(_, reason) => AnswerUnblamed(w, p, segNo, F.HandleNack(w.c.limits, f, reason), filled);
      case TimeoutFor(_) => AnswerUnblamed(w, p, segNo, F.HandleTimeout(w.c.limits, f), filled);
      case WakeFor(_) => RetryUnblamed(p, segNo, F.Wake(f));
    }
  }

  lemma StoppedStays(w: Setting, p: Pipeline, filled: nat)
    requires Inv(w, p, filled)
    ensures p.isStopping ==> forall k :: k in p.fetches ==> !p.Runs(k)
  {
  }

  lemma {:induction false} RunUnblamed(w: Setting, p: Pipeline, events: seq<Event>, filled: nat)
    requires Inv(w, p, filled) && Unblamed(p) && forall e :: e in events ==> Allowed(w, e)
    ensures Unblamed(Run(w, p, events, filled))
    decreases |events|
  {
    hide Inv, WellBound, Unblamed, Step, Allowed;
    if events != [] {
      InvIsWellBound(w, p, filled);
      StepKeeps(w, p, events[0], filled);
      StepUnblamed(w, p, events[0], filled);
      RunUnblamed(w, Step(w.c, p, events[0]), events[1..], filled);
    }
  }

  lemma {:induction false} FillUnblamed(c: Config, p: Pipeline, i: nat)
    requires |p.slots| == c.pipelineSize && i <= c.pipelineSize && !p.isStopping && !p.hasFailure && Blameless(p)
    ensures Blameless(FillPipes(c, p, i))
    decreases c.pipelineSize - i
  {
    if i < c.pipelineSize {
      FetchNextBlameless(c, p, i);
      if CanFetch(c, p) {
        FillUnblamed(c, FetchNextSegment(c, p, i), i + 1);
      }
    }
  }

  lemma ReachedUnblamed(w: Setting, finalBlockId: Option<nat>, events: seq<Event>)
    requires Sound(w) && (finalBlockId.Some? ==> finalBlockId.value == w.content)
    requires forall e :: e in events ==> Allowed(w, e)
    ensures var p := Reached(w, finalBlockId, events); Inv(w, p, FilledAtStart(w, finalBlockId)) && Unblamed(p)
  {
    FillUnblamed(w.c, Fresh(w.c, finalBlockId), 0);
    hide Inv, FillPipes;
    RunUnblamed(w, Start(w.c, finalBlockId), events, FilledAtStart(w, finalBlockId));
  }

  /** Data that a running fetcher takes in stops the pipeline if and only if a failure is
      pending: nothing ever clears m_hasFailure, so it is fatal even when the Data shows that
      the segment that failed does not belong to the content. */
  lemma DataStopsExactly(w: Setting, finalBlockId: Option<nat>, events: seq<Event>, segNo: nat, final: Option<nat>)
    requires Sound(w) && (finalBlockId.Some? ==> finalBlockId.value == w.content)
    requires (forall e :: e in events ==> Allowed(w, e)) && Allowed(w, DataFor(segNo, final))
    ensures var p := Reached(w, finalBlockId, events);
            segNo in p.fetches && p.Runs(segNo) ==>
              WellBound(w.c, p) && (Step(w.c, p, DataFor(segNo, final)).isStopping <==> p.hasFailure)
  {
    var p, filled := Reached(w, finalBlockId, events), FilledAtStart(w, finalBlockId);
    hide Inv, Reached, Step, Allowed, WellBound;
    ReachedUnblamed(w, finalBlockId, events);
    InvIsWellBound(w, p, filled);
    StoppedStays(w, p, filled);
    if segNo in p.fetches && p.Runs(segNo) {
      if p.hasFailure {
        DataFindsFailure(w, p, filled, segNo, final);
      } else {
        DataPasses(w, p, segNo, final);
      }
    }
  }

  // ------------------------------------------------------------------ a failure beyond the end

  /** Two segments, the first one discovered without a FinalBlockId, and two pipes. */
  const TWO := Setting(Config(F.Limits(3, 3), 2, 0), 1)

  /** A segment beyond the end fails, and the transfer fails although the Data that arrives
      next completes it and names the end. */
  lemma FailureBeyondTheEndIsFatal()
    ensures var events := [NackFor(2, OtherReason), DataFor(1, Some(1))];
            && (forall e :: e in events ==> Allowed(TWO, e))
            && Reached(TWO, None, events).isStopping
            && Reached(TWO, None, events).delivered == [1]
  {
    hide Inv, Step, Start;
    var e1, e2 := NackFor(2, OtherReason), DataFor(1, Some(1));
    var p0, filled := Start(TWO.c, None), FilledAtStart(TWO, None);
    AfterStart(p0);
    var p1 := Step(TWO.c, p0, e1);
    AfterNack(p0);
    InvIsWellBound(TWO, p0, filled);
    StepKeeps(TWO, p0, e1, filled);
    InvIsWellBound(TWO, p1, filled);
    StepKeeps(TWO, p1, e2, filled);
    AfterData(p1);
    assert [e1, e2][1..] == [e2] && [e2][1..] == [];
    assert Run(TWO, p0, [e1, e2], filled) == Run(TWO, p1, [e2], filled)
        == Run(TWO, Step(TWO.c, p1, e2), [], filled) == Step(TWO.c, p1, e2);
  }

  /** Both pipes hold their own fetchers, and the first one runs. */
  ghost predicate Paired(p: Pipeline) {
    && !p.isStopping && !p.hasFinalBlockId && p.slots == [Some(1), Some(2)] && p.delivered == []
    && p.fetches.Keys == {1, 2} && p.fetches[1].pipeNo == 0 && p.fetches[2].pipeNo == 1 && p.Runs(1)
  }

  lemma AfterStart(p: Pipeline)
    requires p == Start(TWO.c, None)
    ensures Paired(p) && p.Runs(2) && p.fetches[2].fetcher == F.Fetch()
  {
    var p0 := Fresh(TWO.c, None);
    var p1 := FetchNextSegment(TWO.c, p0, 0);
    var p2 := FetchNextSegment(TWO.c, p1, 1);
    assert FillPipes(TWO.c, p0, 0) == FillPipes(TWO.c, p1, 1) == FillPipes(TWO.c, p2, 2) == p2;
  }

  lemma AfterNack(p: Pipeline)
    requires Paired(p) && p.fetches[2].fetcher == F.Fetch()
    ensures WellBound(TWO.c, p)
    ensures var r := Step(TWO.c, p, NackFor(2, OtherReason)); Paired(r) && r.hasFailure
  {
    var p1 := SetFetcher(p, 2, F.HandleNack(TWO.c.limits, F.Fetch(), OtherReason).fetcher);
    assert StopFollowing(p1, 2, 2) == p1;
    assert StopFollowing(p1, 2, 1) == p1;
    assert StopFollowing(p1, 2, 0) == p1;
    assert p1.slots[0] == Some(1) && p1.Runs(1);
    assert OthersRun(p1, 2);
  }

  lemma AfterData(p: Pipeline)
    requires Paired(p) && p.hasFailure
    ensures WellBound(TWO.c, p)
    ensures var r := Step(TWO.c, p, DataFor(1, Some(1))); r.isStopping && r.delivered == [1]
  {
    hide CancelFetcher, CancelSlots;
    var p1 := Deliver(p, 1, F.HandleData(p.fetches[1].fetcher).fetcher).(lastSegmentNo := 1, hasFinalBlockId := true);
    var p2 := SettleSlots(p1, 0);
    OnFailureFrame(p1);
    OnFailureFrame(p2);
  }
}
