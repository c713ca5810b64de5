/** What the fixed-window pipeline keeps over every run, whatever arrives and in whatever
    order, and what it has achieved when it falls quiet. */
module FixedWindowInvariant {
  import opened Optional
  import opened Counting
  import opened FixedWindowSpec
  import F = DataFetcherSpec

  /** A pipeline and the last segment of the content it fetches. */
  datatype Setting = Setting(c: Config, content: nat)

  ghost predicate Sound(w: Setting) { w.c.pipelineSize >= 1 && w.c.excluded <= w.content }

  /** One fetcher per requested segment, bound to one of the pipes. */
  ghost predicate Fetched(w: Setting, p: Pipeline) {
    && (forall k: nat :: k in p.fetches <==> k < p.nextSegmentNo && k != w.c.excluded)
    && (forall k :: k in p.fetches ==> p.fetches[k].pipeNo < w.c.pipelineSize)
  }

  /** The fetcher in slot `i` is bound to that slot. */
  ghost predicate HoldsOwn(p: Pipeline, i: nat)
    requires i < |p.slots|
  {
    p.slots[i].Some? && p.slots[i].value in p.fetches && p.fetches[p.slots[i].value].pipeNo == i
  }

  /** Every running fetcher is in its slot; pipes from `filled` on are still empty, the others
      are not. */
  ghost predicate Slotted(w: Setting, p: Pipeline, filled: nat) {
    !p.isStopping ==>
      && |p.slots| == w.c.pipelineSize && filled <= w.c.pipelineSize
      && (forall i :: 0 <= i < |p.slots| ==>
            if i < filled then HoldsOwn(p, i) else p.slots[i].None?)
      && (forall k :: k in p.fetches ==> p.fetches[k].pipeNo < filled)
      && (forall k :: k in p.fetches && p.Runs(k) ==> p.slots[p.fetches[k].pipeNo] == Some(k))
  }

  /** After a stop nothing runs. */
  ghost predicate Quenched(p: Pipeline) { p.isStopping ==> forall k :: k in p.fetches ==> !p.Runs(k) }

  /** Each segment is delivered at most once, by a fetcher that has stopped for it. */
  ghost predicate Delivered(p: Pipeline) {
    && Distinct(p.delivered)
    && (forall k :: k in p.delivered ==> k in p.fetches && !p.Runs(k))
  }

  ghost predicate Core(w: Setting, p: Pipeline, filled: nat) {
    && Fetched(w, p) && Slotted(w, p, filled) && Quenched(p) && Delivered(p)
    && (p.hasFinalBlockId ==> p.lastSegmentNo == w.content)
    && (forall k :: k in p.delivered ==> k <= w.content)
  }

  /** There is nothing left to request. */
  ghost predicate Exhausted(w: Setting, p: Pipeline) {
    p.hasFinalBlockId && NextSegment(w.c, p) > p.lastSegmentNo
  }

  /** Unless something has failed, a requested segment of the content is on its way or has
      been delivered. */
  ghost predicate OnItsWay(p: Pipeline) {
    !p.isStopping && !p.hasFailure ==>
      forall k :: k in p.fetches && !(p.hasFinalBlockId && k > p.lastSegmentNo) ==>
        p.Runs(k) || k in p.delivered
  }

  /** Every pipe but `idle` is busy until all segments have been requested. */
  ghost predicate Busy(w: Setting, p: Pipeline, filled: nat, idle: int) {
    !p.isStopping && !p.hasFailure ==>
      forall i :: 0 <= i < |p.slots| && i < filled && i != idle && p.slots[i].Some? ==>
        p.Runs(p.slots[i].value) || Exhausted(w, p)
  }

  /** A failure is pending only while the last segment is unknown and a fetcher still runs;
      once the last segment is known nothing beyond it is fetched. */
  ghost predicate Pending(p: Pipeline) {
    && (!p.isStopping && p.hasFailure ==> !p.hasFinalBlockId && exists k :: k in p.fetches && p.Runs(k))
    && (!p.isStopping && p.hasFinalBlockId ==>
          forall k :: k in p.fetches && p.Runs(k) ==> k <= p.lastSegmentNo)
  }

  /** `filled` pipes were given a fetcher by doRun; it stopped early only for lack of segments. */
  ghost predicate Inv(w: Setting, p: Pipeline, filled: nat) {
    && Core(w, p, filled) && OnItsWay(p) && Busy(w, p, filled, -1) && Pending(p)
    && (!p.isStopping && filled < w.c.pipelineSize ==> Exhausted(w, p))
  }

  // ------------------------------------------------------------------ fetchers only ever stop

  /** `r` differs from `p` in that some fetchers have stopped. */
  ghost predicate Shrinks(p: Pipeline, r: Pipeline) {
    && r.fetches.Keys == p.fetches.Keys
    && (forall k :: k in p.fetches ==> r.fetches[k].pipeNo == p.fetches[k].pipeNo)
    && (forall k :: k in p.fetches && r.Runs(k) ==> p.Runs(k))
    && r == p.(fetches := r.fetches)
  }

  /** Likewise, and the fetchers still running are untouched. */
  ghost predicate Cancels(p: Pipeline, r: Pipeline) {
    Shrinks(p, r) && forall k :: k in p.fetches && r.Runs(k) ==> r.fetches[k] == p.fetches[k]
  }

  lemma ShrinkKeepsCore(w: Setting, p: Pipeline, r: Pipeline, filled: nat)
    requires Core(w, p, filled) && Shrinks(p, r)
    ensures Core(w, r, filled)
  {
    assert forall k :: k in r.fetches <==> k in p.fetches;
  }

  lemma CancelFetcherShrinks(p: Pipeline, segNo: nat)
    ensures Cancels(p, CancelFetcher(p, segNo)) && !CancelFetcher(p, segNo).Runs(segNo)
    ensures forall k :: k in p.fetches && k != segNo ==> CancelFetcher(p, segNo).Runs(k) == p.Runs(k)
  {
  }

  lemma {:induction false} CancelSlotsShrinks(p: Pipeline, i: nat)
    requires i <= |p.slots|
    ensures Cancels(p, CancelSlots(p, i))
    ensures forall j :: i <= j < |p.slots| && p.slots[j].Some? ==> !CancelSlots(p, i).Runs(p.slots[j].value)
    decreases |p.slots| - i
  {
    if i < |p.slots| {
      var p1 := if p.slots[i].Some? then CancelFetcher(p, p.slots[i].value) else p;
      if p.slots[i].Some? {
        CancelFetcherShrinks(p, p.slots[i].value);
      }
      CancelSlotsShrinks(p1, i + 1);
    }
  }

  lemma OnFailureKeeps(w: Setting, p: Pipeline, filled: nat)
    requires Core(w, p, filled)
    ensures Inv(w, OnFailure(p), filled) && OnFailure(p).isStopping
  {
    if !p.isStopping {
      var p1 := p.(isStopping := true);
      CancelSlotsShrinks(p1, 0);
      var r := OnFailure(p);
      forall k | k in p.fetches && p.Runs(k)
        ensures !r.Runs(k)
      {
        assert p.slots[p.fetches[k].pipeNo] == Some(k);
      }
    }
  }

  // ------------------------------------------------------------------ fetching the next segment

  /** How many pipes have a fetcher after `pipeNo` has been asked to fetch. */
  function FilledBy(w: Setting, p: Pipeline, pipeNo: nat, filled: nat): nat {
    if CanFetch(w.c, p) && pipeNo == filled then filled + 1 else filled
  }

  /** Pipe `pipeNo` is free for the next segment. */
  ghost predicate Free(w: Setting, p: Pipeline, pipeNo: nat, filled: nat) {
    && !p.isStopping && pipeNo <= filled && pipeNo < w.c.pipelineSize == |p.slots|
    && (p.slots[pipeNo].Some? ==> !p.Runs(p.slots[pipeNo].value))
    && (!p.hasFailure && p.hasFinalBlockId ==> forall k :: k in p.fetches && p.Runs(k) ==> k <= p.lastSegmentNo)
  }

  lemma FetchNextKeeps(w: Setting, p: Pipeline, pipeNo: nat, filled: nat)
    requires Core(w, p, filled) && OnItsWay(p) && Busy(w, p, filled, pipeNo)
    requires Free(w, p, pipeNo, filled)
    ensures var r := FetchNextSegment(w.c, p, pipeNo);
            && Core(w, r, FilledBy(w, p, pipeNo, filled)) && OnItsWay(r)
            && Busy(w, r, FilledBy(w, p, pipeNo, filled), -1) && Pending(r)
            && (r.isStopping || CanFetch(w.c, p) || Exhausted(w, r))
  {
    if p.hasFailure {
      OnFailureKeeps(w, p, filled);
    } else if CanFetch(w.c, p) {
      assert NextSegment(w.c, p) !in p.fetches;
      FetchNextCore(w, p, pipeNo, filled);
      FetchNextFlow(w, p, pipeNo, filled);
    }
  }

  lemma FetchNextCore(w: Setting, p: Pipeline, pipeNo: nat, filled: nat)
    requires Core(w, p, filled) && Free(w, p, pipeNo, filled) && CanFetch(w.c, p)
    ensures Core(w, FetchNextSegment(w.c, p, pipeNo), FilledBy(w, p, pipeNo, filled))
  {
    var segNo := NextSegment(w.c, p);
    assert segNo !in p.fetches;
    var r := FetchNextSegment(w.c, p, pipeNo);
    forall k | k in r.fetches && r.Runs(k)
      ensures r.slots[r.fetches[k].pipeNo] == Some(k)
    {
      if k != segNo {
        assert p.Runs(k);
        assert p.slots[p.fetches[k].pipeNo] == Some(k);
      }
    }
  }

  lemma FetchNextFlow(w: Setting, p: Pipeline, pipeNo: nat, filled: nat)
    requires Core(w, p, filled) && OnItsWay(p) && Busy(w, p, filled, pipeNo)
    requires Free(w, p, pipeNo, filled) && CanFetch(w.c, p)
    ensures var r := FetchNextSegment(w.c, p, pipeNo);
            OnItsWay(r) && Busy(w, r, FilledBy(w, p, pipeNo, filled), -1) && Pending(r)
  {
    var segNo := NextSegment(w.c, p);
    var r := FetchNextSegment(w.c, p, pipeNo);
    assert segNo !in p.fetches && r.Runs(segNo);
    assert forall k :: k in p.fetches ==> r.Runs(k) == p.Runs(k);
  }

  // ------------------------------------------------------------------ Data

  lemma {:induction false} SettleKeeps(w: Setting, p: Pipeline, i: nat, filled: nat)
    requires Core(w, p, filled) && !p.isStopping && p.hasFinalBlockId && i <= |p.slots|
    requires forall j :: 0 <= j < i && p.slots[j].Some? && p.slots[j].value > p.lastSegmentNo ==>
               !p.Runs(p.slots[j].value)
    ensures var r := SettleSlots(p, i);
            && (r.isStopping ==> Inv(w, r, filled))
            && (!r.isStopping ==>
                  && Cancels(p, r)
                  && (forall k :: k in p.fetches && k <= p.lastSegmentNo ==> r.Runs(k) == p.Runs(k))
                  && (forall k :: k in p.fetches && k > p.lastSegmentNo ==> !r.Runs(k)))
    decreases |p.slots| - i
  {
    hide Fetched, Quenched, Delivered, Slotted, Inv, F.Cancel;
    if i == |p.slots| {
      SettledSlots(w, p, filled);
    } else if p.slots[i].None? || p.slots[i].value !in p.fetches {
      SettleKeeps(w, p, i + 1, filled);
    } else {
      var segNo := p.slots[i].value;
      if segNo > p.lastSegmentNo {
        CancelFetcherShrinks(p, segNo);
        ShrinkKeepsCore(w, p, CancelFetcher(p, segNo), filled);
        SettleKeeps(w, CancelFetcher(p, segNo), i + 1, filled);
      } else if p.fetches[segNo].fetcher.hasError {
        OnFailureKeeps(w, p, filled);
      } else {
        SettleKeeps(w, p, i + 1, filled);
      }
    }
  }

  lemma SettledSlots(w: Setting, p: Pipeline, filled: nat)
    requires Slotted(w, p, filled) && !p.isStopping
    requires forall j :: 0 <= j < |p.slots| && p.slots[j].Some? && p.slots[j].value > p.lastSegmentNo ==>
               !p.Runs(p.slots[j].value)
    ensures forall k :: k in p.fetches && p.Runs(k) ==> k <= p.lastSegmentNo
  {
    forall k | k in p.fetches && p.Runs(k)
      ensures k <= p.lastSegmentNo
    {
      assert p.slots[p.fetches[k].pipeNo] == Some(k);
    }
  }

  /** The pipeline once the fetcher of `segNo` has stopped and its Data is passed on. */
  function Deliver(p: Pipeline, segNo: nat, f: F.Fetcher): Pipeline
    requires segNo in p.fetches
  {
    var p1 := SetFetcher(p, segNo, f);
    p1.(delivered := p1.delivered + [segNo])
  }

  lemma DeliverKeeps(w: Setting, p: Pipeline, segNo: nat, f: F.Fetcher, filled: nat)
    requires Inv(w, p, filled) && !p.isStopping && segNo in p.fetches && p.Runs(segNo) && !f.IsRunning()
    requires segNo <= w.content
    ensures var r := Deliver(p, segNo, f); var pipeNo := p.fetches[segNo].pipeNo;
            Core(w, r, filled) && OnItsWay(r) && Busy(w, r, filled, pipeNo) && Free(w, r, pipeNo, filled)
  {
    DeliverCore(w, p, segNo, f, filled);
    hide Fetched, Delivered, Quenched, Core;
    var r := Deliver(p, segNo, f);
    assert r.delivered == p.delivered + [segNo];
    assert p.slots[p.fetches[segNo].pipeNo] == Some(segNo);
    forall i | 0 <= i < |p.slots| && i < filled && i != p.fetches[segNo].pipeNo
      ensures p.slots[i].value != segNo
    {
      assert HoldsOwn(p, i);
    }
  }

  lemma DeliverCore(w: Setting, p: Pipeline, segNo: nat, f: F.Fetcher, filled: nat)
    requires Core(w, p, filled) && !p.isStopping && segNo in p.fetches && p.Runs(segNo) && !f.IsRunning()
    requires segNo <= w.content
    ensures Core(w, Deliver(p, segNo, f), filled)
    ensures forall k :: k in p.fetches ==> Deliver(p, segNo, f).Runs(k) == (p.Runs(k) && k != segNo)
    ensures p.slots[p.fetches[segNo].pipeNo] == Some(segNo)
    ensures Slotted(w, p, filled)
  {
    var p1 := SetFetcher(p, segNo, f);
    assert Shrinks(p, p1);
    ShrinkKeepsCore(w, p, p1, filled);
    assert Deliver(p, segNo, f).delivered == p.delivered + [segNo];
    assert segNo !in p.delivered;
  }

  lemma LearnKeeps(w: Setting, p: Pipeline, pipeNo: nat, filled: nat)
    requires Core(w, p, filled) && OnItsWay(p) && Busy(w, p, filled, pipeNo) && Free(w, p, pipeNo, filled)
    requires !p.hasFinalBlockId
    ensures var r := SettleSlots(p.(lastSegmentNo := w.content, hasFinalBlockId := true), 0);
            && (r.isStopping ==> Inv(w, r, filled))
            && (!r.isStopping ==> Core(w, r, filled) && OnItsWay(r) && Busy(w, r, filled, pipeNo)
                                  && Free(w, r, pipeNo, filled))
  {
    var p1 := p.(lastSegmentNo := w.content, hasFinalBlockId := true);
    assert forall k :: p1.Runs(k) == p.Runs(k);
    assert Core(w, p1, filled);
    hide Core, OnItsWay, Busy, SettleSlots;
    SettleKeeps(w, p1, 0, filled);
    var r := SettleSlots(p1, 0);
    if !r.isStopping {
      ShrinkKeepsCore(w, p1, r, filled);
      LearntFlow(w, p, r, pipeNo, filled);
    }
  }

  lemma LearntFlow(w: Setting, p: Pipeline, r: Pipeline, pipeNo: nat, filled: nat)
    requires Core(w, p, filled) && OnItsWay(p) && Busy(w, p, filled, pipeNo) && Free(w, p, pipeNo, filled)
    requires !p.hasFinalBlockId && Cancels(p.(lastSegmentNo := w.content, hasFinalBlockId := true), r)
    requires forall k :: k in p.fetches && k <= w.content ==> r.Runs(k) == p.Runs(k)
    requires forall k :: k in p.fetches && k > w.content ==> !r.Runs(k)
    ensures OnItsWay(r) && Busy(w, r, filled, pipeNo) && Free(w, r, pipeNo, filled)
  {
    hide Delivered, Quenched;
    if !p.hasFailure {
      forall i | 0 <= i < |r.slots| && i < filled && i != pipeNo && r.slots[i].Some?
        ensures r.Runs(r.slots[i].value) || Exhausted(w, r)
      {
        assert p.Runs(p.slots[i].value);
      }
    }
  }

  lemma DataKeeps(w: Setting, p: Pipeline, segNo: nat, f: F.Fetcher, final: Option<nat>, filled: nat)
    requires Inv(w, p, filled) && segNo in p.fetches && p.Runs(segNo) && !f.IsRunning()
    requires segNo <= w.content && (final.Some? ==> final.value == w.content)
    ensures var p1 := SetFetcher(p, segNo, f);
            Inv(w, HandleData(w.c, p1, segNo, p.fetches[segNo].pipeNo, final), filled)
  {
    assert !p.isStopping;
    DeliverKeeps(w, p, segNo, f, filled);
    var pipeNo := p.fetches[segNo].pipeNo;
    var p2 := Deliver(p, segNo, f);
    if !p2.hasFinalBlockId && final.Some? {
      LearnKeeps(w, p2, pipeNo, filled);
      var p3 := SettleSlots(p2.(lastSegmentNo := w.content, hasFinalBlockId := true), 0);
      if !p3.isStopping {
        NextOnOldPipe(w, p3, pipeNo, filled);
      }
    } else {
      NextOnOldPipe(w, p2, pipeNo, filled);
    }
  }

  lemma NextOnOldPipe(w: Setting, p: Pipeline, pipeNo: nat, filled: nat)
    requires Core(w, p, filled) && OnItsWay(p) && Busy(w, p, filled, pipeNo) && Free(w, p, pipeNo, filled)
    requires pipeNo < filled
    requires filled < w.c.pipelineSize ==> Exhausted(w, p)
    ensures Inv(w, FetchNextSegment(w.c, p, pipeNo), filled)
  {
    hide Core, OnItsWay, Busy;
    FetchNextKeeps(w, p, pipeNo, filled);
  }

  // ------------------------------------------------------------------ failures and retries

  lemma {:induction false} StopFollowingShrinks(p: Pipeline, failed: nat, i: nat)
    requires i <= |p.slots|
    ensures Cancels(p, StopFollowing(p, failed, i))
    decreases |p.slots| - i
  {
    if i < |p.slots| {
      if p.slots[i].Some? && p.slots[i].value > failed {
        CancelFetcherShrinks(p, p.slots[i].value);
        StopFollowingShrinks(CancelFetcher(p, p.slots[i].value), failed, i + 1);
      } else {
        StopFollowingShrinks(p, failed, i + 1);
      }
    }
  }

  lemma FailKeeps(w: Setting, p: Pipeline, segNo: nat, f: F.Fetcher, filled: nat)
    requires Inv(w, p, filled) && segNo in p.fetches && p.Runs(segNo) && !f.IsRunning()
    ensures var p1 := SetFetcher(p, segNo, f); var pipeNo := p.fetches[segNo].pipeNo;
            && (!p1.isStopping ==> pipeNo < |p1.slots| && p1.slots[pipeNo] == Some(segNo))
            && Inv(w, HandleFail(p1, pipeNo), filled)
  {
    assert !p.isStopping && p.slots[p.fetches[segNo].pipeNo] == Some(segNo);
    var p1 := SetFetcher(p, segNo, f);
    assert Shrinks(p, p1);
    ShrinkKeepsCore(w, p, p1, filled);
    if p1.hasFinalBlockId {
      OnFailureKeeps(w, p1, filled);
    } else {
      var p2 := StopFollowing(p1, segNo, 0);
      StopFollowingShrinks(p1, segNo, 0);
      ShrinkKeepsCore(w, p1, p2, filled);
      if OthersRun(p2, segNo) {
        FailurePends(w, p2, segNo, filled);
      } else {
        OnFailureKeeps(w, p2, filled);
      }
    }
  }

  lemma FailurePends(w: Setting, p: Pipeline, failed: nat, filled: nat)
    requires Core(w, p, filled) && !p.isStopping && !p.hasFinalBlockId && OthersRun(p, failed)
    requires filled == w.c.pipelineSize
    ensures Inv(w, p.(hasFailure := true), filled)
  {
    var r := p.(hasFailure := true);
    var i :| 0 <= i < |p.slots| && p.slots[i].Some? && p.slots[i].value <= failed && p.Runs(p.slots[i].value);
    assert r.Runs(p.slots[i].value);
    assert forall k :: r.Runs(k) == p.Runs(k);
  }

  /** A fetcher that keeps running, or one that had stopped already, changes nothing here. */
  lemma SameRunsKeeps(w: Setting, p: Pipeline, segNo: nat, f: F.Fetcher, filled: nat)
    requires Inv(w, p, filled) && segNo in p.fetches && f.IsRunning() == p.Runs(segNo)
    ensures Inv(w, SetFetcher(p, segNo, f), filled)
  {
    var r := SetFetcher(p, segNo, f);
    assert Shrinks(p, r);
    ShrinkKeepsCore(w, p, r, filled);
    assert forall k :: k in p.fetches ==> r.Runs(k) == p.Runs(k);
    hide Core;
  }

  // ------------------------------------------------------------------ one event

  /** Data are the producer's: they belong to the content, and a FinalBlockId is its last
      segment number.  Nothing else is assumed, neither order nor timing. */
  ghost predicate Allowed(w: Setting, e: Event) {
    e.DataFor? ==> e.segNo <= w.content && (e.finalBlockId.Some? ==> e.finalBlockId.value == w.content)
  }

  lemma InvIsWellBound(w: Setting, p: Pipeline, filled: nat)
    requires Inv(w, p, filled)
    ensures WellBound(w.c, p)
  {
    if !p.isStopping {
      forall k | k in p.fetches
        ensures p.fetches[k].pipeNo < |p.slots| && p.slots[p.fetches[k].pipeNo].Some?
      {
        assert HoldsOwn(p, p.fetches[k].pipeNo);
      }
    }
  }

  lemma StepKeeps(w: Setting, p: Pipeline, e: Event, filled: nat)
    requires Inv(w, p, filled) && Allowed(w, e) && WellBound(w.c, p)
    ensures Inv(w, Step(w.c, p, e), filled)
  {
    hide Inv, HandleData, HandleFail, WellBound;
    if e.segNo in p.fetches {
      var segNo := e.segNo;
      var f := p.fetches[segNo].fetcher;
      match e
      case DataFor(_, final) =>
        if f.IsRunning() {
          DataKeeps(w, p, segNo, F.HandleData(f).fetcher, final, filled);
        } else {
          SameRunsKeeps(w, p, segNo, f, filled);
        }
      case NackFor(_, reason) =>
        var r := F.HandleNack(w.c.limits, f, reason);
        if r.report == F.GaveUp {
          FailKeeps(w, p, segNo, r.fetcher, filled);
        } else {
          SameRunsKeeps(w, p, segNo, r.fetcher, filled);
        }
      case TimeoutFor(_) =>
        var r := F.HandleTimeout(w.c.limits, f);
        if r.report == F.GaveUp {
          FailKeeps(w, p, segNo, r.fetcher, filled);
        } else {
          SameRunsKeeps(w, p, segNo, r.fetcher, filled);
        }
      case WakeFor(_) =>
        SameRunsKeeps(w, p, segNo, F.Wake(f), filled);
    }
  }

  // ------------------------------------------------------------------ start

  lemma {:induction false} FillKeeps(w: Setting, p: Pipeline, i: nat) returns (filled: nat)
    requires Sound(w) && i <= w.c.pipelineSize == |p.slots| && !p.isStopping && !p.hasFailure
    requires Core(w, p, i) && OnItsWay(p) && Busy(w, p, i, -1) && Pending(p)
    ensures Inv(w, FillPipes(w.c, p, i), filled)
    decreases w.c.pipelineSize - i
  {
    hide Core, OnItsWay, Busy;
    filled := i;
    if i < w.c.pipelineSize {
      EmptyPipeIsFree(w, p, i);
      FetchNextKeeps(w, p, i, i);
      if CanFetch(w.c, p) {
        filled := FillKeeps(w, FetchNextSegment(w.c, p, i), i + 1);
      } else {
        assert FillPipes(w.c, p, i) == FetchNextSegment(w.c, p, i);
      }
    }
  }

  lemma EmptyPipeIsFree(w: Setting, p: Pipeline, i: nat)
    requires Core(w, p, i) && !p.isStopping && i < w.c.pipelineSize && Pending(p) && Busy(w, p, i, -1)
    ensures Free(w, p, i, i) && |p.slots| == w.c.pipelineSize && Busy(w, p, i, i)
  {
  }

  lemma StartKeeps(w: Setting, finalBlockId: Option<nat>) returns (filled: nat)
    requires Sound(w) && (finalBlockId.Some? ==> finalBlockId.value == w.content)
    ensures Inv(w, Start(w.c, finalBlockId), filled)
  {
    var p := Fresh(w.c, finalBlockId);
    assert Core(w, p, 0);
    filled := FillKeeps(w, p, 0);
  }
}
