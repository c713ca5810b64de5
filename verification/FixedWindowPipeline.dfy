/** The fixed-window pipeline as an object that owns DataFetcher objects, proved against the
    state machine of FixedWindowSpec.dfy. */
module FixedWindowPipeline {
  import opened Optional
  import opened FixedWindowSpec
  import opened DataFetcher
  import F = DataFetcherSpec
  import Inv = FixedWindowInvariant

  datatype Slot = Slot(fetcher: DataFetcher, segNo: nat)

  /** What is known about the content and how far it has been requested. */
  datatype Content = Content(hasFinalBlockId: bool, lastSegmentNo: nat, nextSegmentNo: nat)

  /** Callbacks find the slots in place: a running fetcher sits in the slot it was bound to,
      and only segments before `nextSegmentNo` have fetchers. */
  ghost predicate Seated(c: Config, p: Pipeline) {
    && WellBound(c, p)
    && (forall k :: k in p.fetches ==> k < p.nextSegmentNo)
    && (!p.isStopping ==> forall k :: k in p.fetches && p.Runs(k) ==> p.slots[p.fetches[k].pipeNo] == Some(k))
  }

  /** No running fetcher would be lost from pipe `pipeNo`. */
  ghost predicate Vacant(p: Pipeline, pipeNo: nat) {
    && (forall k :: k in p.fetches ==> k < p.nextSegmentNo)
    && (!p.isStopping ==>
          pipeNo < |p.slots| && (p.slots[pipeNo].Some? ==> !p.Runs(p.slots[pipeNo].value)))
  }

  /** `r` differs from `p` only in that some fetchers have stopped. */
  ghost predicate Stops(p: Pipeline, r: Pipeline) {
    && r == p.(fetches := r.fetches) && r.fetches.Keys == p.fetches.Keys
    && forall k :: k in p.fetches && r.Runs(k) ==> p.Runs(k)
  }

  lemma CancelStops(p: Pipeline, segNo: nat)
    ensures Stops(p, FixedWindowSpec.CancelFetcher(p, segNo))
  {
  }

  /** In every state that a run reaches, callbacks find the slots in place. */
  lemma AlwaysSeated(w: Inv.Setting, p: Pipeline, filled: nat)
    requires Inv.Inv(w, p, filled)
    ensures Seated(w.c, p)
  {
    Inv.InvIsWellBound(w, p, filled);
  }

  class PipelineInterestsFixedWindow {
    const limits: F.Limits
    const pipelineSize: nat

    var excludedSegmentNo: nat
    var isStopping: bool
    var hasFailure: bool
    var content: Content
    var segmentFetchers: seq<Option<Slot>>

    /** The state of the state machine that the fields stand for, and every fetcher so far. */
    ghost var model: Pipeline
    ghost var started: map<nat, DataFetcher>

    ghost predicate Valid()
      reads this, started.Values
    {
      && model.isStopping == isStopping && model.hasFailure == hasFailure
      && content == Content(model.hasFinalBlockId, model.lastSegmentNo, model.nextSegmentNo)
      && SlotsMatch() && started.Keys == model.fetches.Keys && FetchersMatch(model.fetches)
    }

    ghost predicate SlotsMatch()
      reads this
    {
      && |segmentFetchers| == |model.slots|
      && forall i :: 0 <= i < |segmentFetchers| ==>
           match segmentFetchers[i]
           case None => model.slots[i].None?
           case Some(slot) =>
             model.slots[i] == Some(slot.segNo) && slot.segNo in started && started[slot.segNo] == slot.fetcher
    }

    ghost predicate FetchersMatch(fetches: map<nat, Fetch>)
      requires started.Keys == fetches.Keys
      reads this`started, started.Values
    {
      && (forall k :: k in started ==>
            started[k].View() == fetches[k].fetcher && started[k].Limits() == limits)
      && (forall j, k :: j in started && k in started && j != k ==> started[j] != started[k])
    }

    ghost function Conf(): Config
      reads this`excludedSegmentNo
    {
      Config(limits, pipelineSize, excludedSegmentNo)
    }

    constructor (limits: F.Limits, maxPipelineSize: nat)
      ensures Valid() && Conf() == Config(limits, maxPipelineSize, 0) && model == Fresh(Conf(), None)
      ensures started == map[]
    {
      this.limits, pipelineSize, excludedSegmentNo := limits, maxPipelineSize, 0;
      isStopping, hasFailure, content := false, false, Content(false, 0, 0);
      segmentFetchers := seq(maxPipelineSize, _ => None);
      model, started := Fresh(Config(limits, maxPipelineSize, 0), None), map[];
    }

    /** The fetcher object's own answer is the state machine's. */
    predicate IsRunning(slot: Slot)
      requires Valid() && slot.segNo in started && started[slot.segNo] == slot.fetcher
      reads this, started.Values
      ensures IsRunning(slot) == model.Runs(slot.segNo)
    {
      slot.fetcher.IsRunning()
    }

    predicate HasError(slot: Slot)
      requires Valid() && slot.segNo in started && started[slot.segNo] == slot.fetcher
      reads this, started.Values
      ensures HasError(slot) == model.fetches[slot.segNo].fetcher.hasError
    {
      slot.fetcher.hasError
    }

    // ---------------------------------------------------------------- its fetchers

    /** A fetcher of this pipeline reacts to what happens to it. */
    method React(segNo: nat, fetcher: DataFetcher, what: F.Event) returns (report: F.Report)
      requires Valid() && segNo in started && started[segNo] == fetcher
      modifies fetcher, this`model
      ensures Valid()
      ensures var r := F.React(limits, old(model).fetches[segNo].fetcher, what);
              report == r.report && model == SetFetcher(old(model), segNo, r.fetcher)
    {
      hide F.React;
      report := fetcher.React(what);
      model := SetFetcher(model, segNo, fetcher.View());
    }

    // ---------------------------------------------------------------- stopping

    method CancelFetcher(slot: Slot)
      requires Valid() && slot.segNo in started && started[slot.segNo] == slot.fetcher
      modifies slot.fetcher, this`model
      ensures Valid() && model == FixedWindowSpec.CancelFetcher(old(model), slot.segNo)
      ensures Stops(old(model), model)
      ensures forall k :: k in model.fetches && k != slot.segNo ==> model.fetches[k] == old(model).fetches[k]
    {
      hide FetchersMatch, SlotsMatch, Stops, F.Cancel;
      CancelStops(model, slot.segNo);
      var _ := React(slot.segNo, slot.fetcher, F.Cancelled);
    }

    method Cancel()
      requires Valid()
      modifies this`isStopping, this`segmentFetchers, this`model, started.Values
      ensures Valid() && model == FixedWindowSpec.Cancel(old(model)) && isStopping
    {
      if isStopping {
        return;
      }
      isStopping := true;
      model := model.(isStopping := true);
      DoCancel();
    }

    method DoCancel()
      requires Valid()
      modifies this`segmentFetchers, this`model, started.Values
      ensures Valid() && model == CancelSlots(old(model), 0).(slots := [])
    {
      CancelAll();
      segmentFetchers := [];
      model := model.(slots := []);
    }

    method CancelAll()
      requires Valid()
      modifies this`model, started.Values
      ensures Valid() && model == CancelSlots(old(model), 0)
    {
      hide FetchersMatch, FixedWindowSpec.CancelFetcher;
      for i := 0 to |segmentFetchers|
        invariant Valid() && CancelSlots(model, i) == CancelSlots(old(model), 0)
      {
        if segmentFetchers[i].Some? {
          CancelFetcher(segmentFetchers[i].value);
        }
      }
    }

    method OnFailure()
      requires Valid()
      modifies this`isStopping, this`segmentFetchers, this`model, started.Values
      ensures Valid() && model == FixedWindowSpec.OnFailure(old(model)) && isStopping
    {
      if isStopping {
        return;
      }
      Cancel();
    }

    // ---------------------------------------------------------------- fetching

    method FetchNextSegment(pipeNo: nat) returns (fetched: bool)
      requires Valid() && Vacant(model, pipeNo)
      modifies this, started.Values
      ensures Valid() && Conf() == old(Conf())
      ensures model == FixedWindowSpec.FetchNextSegment(Conf(), old(model), pipeNo)
      ensures fetched == CanFetch(Conf(), old(model))
      ensures fresh(started.Values - old(started.Values))
    {
      if isStopping {
        return false;
      }
      if hasFailure {
        OnFailure();
        return false;
      }
      fetched := RequestNextSegment(pipeNo);
    }

    method RequestNextSegment(pipeNo: nat) returns (fetched: bool)
      requires Valid() && Vacant(model, pipeNo) && !isStopping && !hasFailure
      modifies this`content, this`segmentFetchers, this`model, this`started
      ensures Valid()
      ensures model == FixedWindowSpec.FetchNextSegment(Conf(), old(model), pipeNo)
      ensures fetched == CanFetch(Conf(), old(model))
      ensures fresh(started.Values - old(started.Values))
    {
      hide FetchersMatch;
      SkipExcludedSegment();
      if content.hasFinalBlockId && content.nextSegmentNo > content.lastSegmentNo {
        return false;
      }
      assert segmentFetchers[pipeNo].Some? ==> !IsRunning(segmentFetchers[pipeNo].value);
      var fetcher := StartFetcher();
      Install(fetcher, pipeNo);
      return true;
    }

    method SkipExcludedSegment()
      requires Valid()
      modifies this`content, this`model
      ensures Valid() && model == old(model).(nextSegmentNo := NextSegment(Conf(), old(model)))
    {
      if content.nextSegmentNo == excludedSegmentNo {
        content := content.(nextSegmentNo := content.nextSegmentNo + 1);
      }
      model := model.(nextSegmentNo := content.nextSegmentNo);
    }

    method StartFetcher() returns (fetcher: DataFetcher)
      requires Valid()
      ensures Valid() && fresh(fetcher) && fetcher.View() == F.Fetch() && fetcher.Limits() == limits
    {
      fetcher := new DataFetcher(limits.maxNackRetries, limits.maxTimeoutRetries);
    }

    method Install(fetcher: DataFetcher, pipeNo: nat)
      requires Valid() && pipeNo < |segmentFetchers| && content.nextSegmentNo !in started
      requires fetcher !in started.Values && fetcher.View() == F.Fetch() && fetcher.Limits() == limits
      modifies this`content, this`segmentFetchers, this`model, this`started
      ensures Valid() && started == old(started)[old(content.nextSegmentNo) := fetcher]
      ensures model == var segNo := old(content.nextSegmentNo);
                       old(model).(nextSegmentNo := segNo + 1, slots := old(model).slots[pipeNo := Some(segNo)],
                                   fetches := old(model).fetches[segNo := Fetch(F.Fetch(), pipeNo)])
    {
      var segNo := content.nextSegmentNo;
      segmentFetchers := segmentFetchers[pipeNo := Some(Slot(fetcher, segNo))];
      content := content.(nextSegmentNo := segNo + 1);
      model := model.(nextSegmentNo := segNo + 1, slots := model.slots[pipeNo := Some(segNo)],
                      fetches := model.fetches[segNo := Fetch(F.Fetch(), pipeNo)]);
      started := started[segNo := fetcher];
    }

    // ---------------------------------------------------------------- callbacks

    /** What the owner's handleData does on a fetcher's Data. */
    method HandleData(ghost segNo: nat, pipeNo: nat, finalBlockId: Option<nat>)
      requires Valid() && Vacant(model, pipeNo) && segNo in started
      modifies this, started.Values
      ensures Valid() && Conf() == old(Conf())
      ensures model == FixedWindowSpec.HandleData(Conf(), old(model), segNo, pipeNo, finalBlockId)
      ensures fresh(started.Values - old(started.Values))
    {
      hide FetchersMatch, SettleSlots, FixedWindowSpec.FetchNextSegment;
      if isStopping {
        return;
      }
      model := model.(delivered := model.delivered + [segNo]);
      if !content.hasFinalBlockId && finalBlockId.Some? {
        var settled := LearnFinalBlockId(finalBlockId.value);
        if !settled {
          return;
        }
      }
      var _ := FetchNextSegment(pipeNo);
    }

    /** Stops what lies beyond the last segment; false when the pipeline has failed. */
    method LearnFinalBlockId(last: nat) returns (settled: bool)
      requires Valid() && !isStopping
      modifies this`isStopping, this`content, this`segmentFetchers, this`model, started.Values
      ensures Valid() && model == SettleSlots(old(model).(lastSegmentNo := last, hasFinalBlockId := true), 0)
      ensures settled == !model.isStopping
      ensures settled ==> Stops(old(model).(lastSegmentNo := last, hasFinalBlockId := true), model)
    {
      content := content.(lastSegmentNo := last, hasFinalBlockId := true);
      model := model.(lastSegmentNo := last, hasFinalBlockId := true);
      settled := Settle();
    }

    method Settle() returns (settled: bool)
      requires Valid() && !isStopping
      modifies this`isStopping, this`segmentFetchers, this`model, started.Values
      ensures Valid() && model == SettleSlots(old(model), 0)
      ensures settled == !model.isStopping
      ensures settled ==> Stops(old(model), model)
    {
      hide FetchersMatch, FixedWindowSpec.CancelFetcher, FixedWindowSpec.Cancel;
      for i := 0 to |segmentFetchers|
        invariant Valid() && segmentFetchers == old(segmentFetchers) && !isStopping
        invariant SettleSlots(model, i) == SettleSlots(old(model), 0) && Stops(old(model), model)
      {
        if segmentFetchers[i].Some? {
          var slot := segmentFetchers[i].value;
          if slot.segNo > content.lastSegmentNo {
            CancelFetcher(slot);
          } else if HasError(slot) {
            OnFailure();
            return false;
          }
        }
      }
      return true;
    }

    /** What the owner's handleFail does when a fetcher gives up. */
    method HandleFail(pipeNo: nat)
      requires Valid() && (isStopping || (pipeNo < |model.slots| && model.slots[pipeNo].Some?))
      modifies this`isStopping, this`hasFailure, this`segmentFetchers, this`model, started.Values
      ensures Valid() && model == FixedWindowSpec.HandleFail(old(model), pipeNo)
    {
      hide FetchersMatch, FixedWindowSpec.StopFollowing;
      if isStopping {
        return;
      }
      var failed := segmentFetchers[pipeNo].value.segNo;
      if content.hasFinalBlockId && failed <= content.lastSegmentNo {
        OnFailure();
      } else if !content.hasFinalBlockId {
        var areAllFetchersStopped := StopFollowing(failed);
        if areAllFetchersStopped {
          OnFailure();
        } else {
          hasFailure := true;
          model := model.(hasFailure := true);
        }
      }
    }

    method StopFollowing(failed: nat) returns (areAllFetchersStopped: bool)
      requires Valid()
      modifies this`model, started.Values
      ensures Valid() && model == FixedWindowSpec.StopFollowing(old(model), failed, 0)
      ensures areAllFetchersStopped == !OthersRun(model, failed)
    {
      hide FetchersMatch, FixedWindowSpec.CancelFetcher, NoneRuns, OthersRun;
      areAllFetchersStopped := true;
      NoneRunsMeans(model, failed, 0);
      for i := 0 to |segmentFetchers|
        invariant Valid() && model.slots == old(model.slots)
        invariant FixedWindowSpec.StopFollowing(model, failed, i) == FixedWindowSpec.StopFollowing(old(model), failed, 0)
        invariant areAllFetchersStopped <==> NoneRuns(model, failed, i)
      {
        ghost var before := model;
        if segmentFetchers[i].Some? {
          var slot := segmentFetchers[i].value;
          if slot.segNo > failed {
            CancelFetcher(slot);
          } else if IsRunning(slot) {
            areAllFetchersStopped := false;
          }
        }
        NextSlot(before, model, failed, i);
      }
      NoneRunsMeans(model, failed, |segmentFetchers|);
    }

    // ---------------------------------------------------------------- runs

    /** PipelineInterests::run. */
    method Run(excluded: nat, finalBlockId: Option<nat>)
      requires Valid() && model == Fresh(Conf(), None)
      modifies this
      ensures Valid() && Conf() == Config(limits, pipelineSize, excluded)
      ensures model == Start(Conf(), finalBlockId)
    {
      excludedSegmentNo := excluded;
      if finalBlockId.Some? {
        content := content.(hasFinalBlockId := true, lastSegmentNo := finalBlockId.value);
      }
      model := Fresh(Conf(), finalBlockId);
      DoRun();
    }

    method DoRun()
      requires Valid() && Unfilled(model, 0) && |model.slots| == pipelineSize
      modifies this, started.Values
      ensures Valid() && Conf() == old(Conf()) && model == FillPipes(Conf(), old(model), 0)
    {
      hide FetchersMatch;
      for nRequestedSegments := 0 to pipelineSize
        invariant Valid() && Conf() == old(Conf()) && fresh(started.Values - old(started.Values))
        invariant Unfilled(model, nRequestedSegments) && |model.slots| == pipelineSize
        invariant FillPipes(Conf(), model, nRequestedSegments) == FillPipes(Conf(), old(model), 0)
      {
        FillOne(Conf(), model, nRequestedSegments);
        var fetched := FetchNextSegment(nRequestedSegments);
        if !fetched {
          break;
        }
      }
    }

    // ---------------------------------------------------------------- what reaches the fetchers

    /** Data, a Nack, a timeout or the scheduler reaches a fetcher, which calls back on the
        pipe it was bound to. */
    method Handle(e: Event, fetcher: DataFetcher, pipeNo: nat)
      requires Valid() && Seated(Conf(), model)
      requires e.segNo in started && started[e.segNo] == fetcher && model.fetches[e.segNo].pipeNo == pipeNo
      modifies this, started.Values
      ensures Valid() && Conf() == old(Conf()) && model == Step(Conf(), old(model), e)
    {
      hide FetchersMatch, FixedWindowSpec.HandleData, FixedWindowSpec.HandleFail, Step, F.React, Seated, Vacant;
      StepIsDispatch(Conf(), model, e);
      var report := React(e.segNo, fetcher, AtFetcher(e));
      Released(Conf(), old(model), e);
      match report
      case Nothing =>
      case GotData => HandleData(e.segNo, pipeNo, if e.DataFor? then e.finalBlockId else None);
      case GaveUp => HandleFail(pipeNo);
    }
  }

  function AtFetcher(e: Event): F.Event {
    match e
    case DataFor(_, _) => F.Data
    case NackFor(_, reason) => F.Nack(reason)
    case TimeoutFor(_) => F.Timeout
    case WakeFor(_) => F.Scheduled
  }

  lemma StepIsDispatch(c: Config, p: Pipeline, e: Event)
    requires Seated(c, p) && e.segNo in p.fetches
    ensures Step(c, p, e) ==
            Dispatch(c, p, e.segNo, F.React(c.limits, p.fetches[e.segNo].fetcher, AtFetcher(e)),
                     if e.DataFor? then e.finalBlockId else None)
  {
  }

  /** A fetcher that calls back no longer runs, so its pipe is free. */
  lemma Released(c: Config, p: Pipeline, e: Event)
    requires Seated(c, p) && e.segNo in p.fetches
    ensures var r := F.React(c.limits, p.fetches[e.segNo].fetcher, AtFetcher(e));
            var p1, pipeNo := SetFetcher(p, e.segNo, r.fetcher), p.fetches[e.segNo].pipeNo;
            && (r.report != F.Nothing ==> Vacant(p1, pipeNo))
            && (p1.isStopping || (pipeNo < |p1.slots| && p1.slots[pipeNo].Some?))
  {
  }

  /** What doRun relies on before it fills pipe `i`. */
  ghost predicate Unfilled(p: Pipeline, i: nat) {
    && !p.isStopping && !p.hasFailure && (forall k :: k in p.fetches ==> k < p.nextSegmentNo)
    && forall j :: i <= j < |p.slots| ==> p.slots[j].None?
  }

  lemma FillOne(c: Config, p: Pipeline, i: nat)
    requires |p.slots| == c.pipelineSize && i < c.pipelineSize && Unfilled(p, i)
    ensures var r := FetchNextSegment(c, p, i);
            && Vacant(p, i)
            && FillPipes(c, p, i) == (if CanFetch(c, p) then FillPipes(c, r, i + 1) else r)
            && Unfilled(r, i + 1) && |r.slots| == c.pipelineSize
  {
  }

  /** No slot before `n` holds a running fetcher of a segment up to `failed`. */
  ghost predicate NoneRuns(p: Pipeline, failed: nat, n: nat)
    requires n <= |p.slots|
  {
    forall i :: 0 <= i < n && p.slots[i].Some? && p.slots[i].value <= failed ==> !p.Runs(p.slots[i].value)
  }

  lemma NoneRunsMeans(p: Pipeline, failed: nat, n: nat)
    requires n <= |p.slots|
    ensures NoneRuns(p, failed, 0) && (n == |p.slots| ==> NoneRuns(p, failed, n) == !OthersRun(p, failed))
  {
  }

  lemma NextSlot(p: Pipeline, r: Pipeline, failed: nat, i: nat)
    requires i < |p.slots| && p.slots == r.slots && p.fetches.Keys == r.fetches.Keys
    requires forall k :: k in p.fetches && k <= failed ==> p.fetches[k] == r.fetches[k]
    ensures NoneRuns(r, failed, i + 1) <==>
            NoneRuns(p, failed, i)
            && !(p.slots[i].Some? && p.slots[i].value <= failed && p.Runs(p.slots[i].value))
  {
    assert forall k: nat :: k <= failed ==> p.Runs(k) == r.Runs(k);
  }
}
