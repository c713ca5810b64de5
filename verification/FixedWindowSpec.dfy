/** The fixed-window pipeline as a state machine over values.  Each segment is fetched by at
    most one fetcher, so fetchers are known by their segment. */
module FixedWindowSpec {
  import opened Network
  import opened Optional
  import F = DataFetcherSpec

  datatype Config = Config(limits: F.Limits, pipelineSize: nat, excluded: nat)

  /** A fetcher and the pipe that its callbacks were bound to. */
  datatype Fetch = Fetch(fetcher: F.Fetcher, pipeNo: nat)

  datatype Pipeline = Pipeline(
    isStopping: bool,
    hasFinalBlockId: bool,
    lastSegmentNo: nat,
    nextSegmentNo: nat,
    hasFailure: bool,
    slots: seq<Option<nat>>,        // the segment each pipe fetches
    fetches: map<nat, Fetch>,       // every fetcher ever started, by segment
    delivered: seq<nat>)            // segments passed to onData
  {
    predicate Runs(segNo: nat) { segNo in fetches && fetches[segNo].fetcher.IsRunning() }
  }

  function SetFetcher(p: Pipeline, segNo: nat, f: F.Fetcher): Pipeline
    requires segNo in p.fetches
  {
    p.(fetches := p.fetches[segNo := p.fetches[segNo].(fetcher := f)])
  }

  function CancelFetcher(p: Pipeline, segNo: nat): Pipeline {
    if segNo in p.fetches then SetFetcher(p, segNo, F.Cancel(p.fetches[segNo].fetcher)) else p
  }

  /** The loop of doCancel, from slot `i` on. */
  function CancelSlots(p: Pipeline, i: nat): (r: Pipeline)
    requires i <= |p.slots|
    ensures r == p.(fetches := r.fetches)
    decreases |p.slots| - i
  {
    if i == |p.slots| then p
    else CancelSlots(if p.slots[i].Some? then CancelFetcher(p, p.slots[i].value) else p, i + 1)
  }

  function Cancel(p: Pipeline): Pipeline {
    if p.isStopping then p
    else CancelSlots(p.(isStopping := true), 0).(slots := [])
  }

  function OnFailure(p: Pipeline): Pipeline { Cancel(p) }

  /** The next segment that fetchNextSegment would request. */
  function NextSegment(c: Config, p: Pipeline): nat {
    if p.nextSegmentNo == c.excluded then p.nextSegmentNo + 1 else p.nextSegmentNo
  }

  predicate CanFetch(c: Config, p: Pipeline) {
    && !p.isStopping && !p.hasFailure
    && !(p.hasFinalBlockId && NextSegment(c, p) > p.lastSegmentNo)
  }

  function FetchNextSegment(c: Config, p: Pipeline, pipeNo: nat): Pipeline
    requires pipeNo < |p.slots| || p.isStopping
  {
    if p.isStopping then p
    else if p.hasFailure then OnFailure(p)
    else
      var segNo := NextSegment(c, p);
      if p.hasFinalBlockId && segNo > p.lastSegmentNo then p.(nextSegmentNo := segNo)
      else
        p.(nextSegmentNo := segNo + 1, slots := p.slots[pipeNo := Some(segNo)],
           fetches := p.fetches[segNo := Fetch(F.Fetch(), pipeNo)])
  }

  /** The loop of handleData over the slots once the last segment has become known.  A failed
      fetcher of a content segment ends the loop. */
  function SettleSlots(p: Pipeline, i: nat): (r: Pipeline)
    requires i <= |p.slots|
    ensures r.delivered == p.delivered && r.fetches.Keys == p.fetches.Keys
    ensures !r.isStopping ==> r == p.(fetches := r.fetches)
    decreases |p.slots| - i
  {
    if i == |p.slots| then p
    else if p.slots[i].None? || p.slots[i].value !in p.fetches then SettleSlots(p, i + 1)
    else
      var segNo := p.slots[i].value;
      if segNo > p.lastSegmentNo then SettleSlots(CancelFetcher(p, segNo), i + 1)
      else if p.fetches[segNo].fetcher.hasError then OnFailureFrame(p); OnFailure(p)
      else SettleSlots(p, i + 1)
  }

  lemma {:induction false} CancelSlotsKeeps(p: Pipeline, i: nat)
    requires i <= |p.slots|
    ensures CancelSlots(p, i).fetches.Keys == p.fetches.Keys
    decreases |p.slots| - i
  {
    if i < |p.slots| {
      CancelSlotsKeeps(if p.slots[i].Some? then CancelFetcher(p, p.slots[i].value) else p, i + 1);
    }
  }

  lemma OnFailureFrame(p: Pipeline)
    ensures OnFailure(p).delivered == p.delivered && OnFailure(p).fetches.Keys == p.fetches.Keys
  {
    if !p.isStopping {
      CancelSlotsKeeps(p.(isStopping := true), 0);
    }
  }

  /** The pipeline's handleData: Data for `segNo` came in on `pipeNo`. */
  function HandleData(c: Config, p: Pipeline, segNo: nat, pipeNo: nat, finalBlockId: Option<nat>): Pipeline
    requires pipeNo < |p.slots| || p.isStopping
  {
    if p.isStopping then p
    else
      var p1 := p.(delivered := p.delivered + [segNo]);
      if !p1.hasFinalBlockId && finalBlockId.Some? then
        var p2 := SettleSlots(p1.(lastSegmentNo := finalBlockId.value, hasFinalBlockId := true), 0);
        if p2.isStopping then p2 else FetchNextSegment(c, p2, pipeNo)
      else FetchNextSegment(c, p1, pipeNo)
  }

  /** The loop of handleFail over the slots: cancel what follows `failed`, and report whether
      all the others have stopped. */
  function StopFollowing(p: Pipeline, failed: nat, i: nat): (r: Pipeline)
    requires i <= |p.slots|
    ensures r == p.(fetches := r.fetches)
    decreases |p.slots| - i
  {
    if i == |p.slots| then p
    else if p.slots[i].Some? && p.slots[i].value > failed then
      StopFollowing(CancelFetcher(p, p.slots[i].value), failed, i + 1)
    else StopFollowing(p, failed, i + 1)
  }

  /** Whether a slot up to `failed` still has a running fetcher. */
  predicate OthersRun(p: Pipeline, failed: nat) {
    exists i :: 0 <= i < |p.slots| && p.slots[i].Some? && p.slots[i].value <= failed && p.Runs(p.slots[i].value)
  }

  function HandleFail(p: Pipeline, pipeNo: nat): Pipeline
    requires p.isStopping || (pipeNo < |p.slots| && p.slots[pipeNo].Some?)
  {
    if p.isStopping then p
    else
      var failed := p.slots[pipeNo].value;
      if p.hasFinalBlockId then
        if failed <= p.lastSegmentNo then OnFailure(p) else p
      else
        var p1 := StopFollowing(p, failed, 0);
        if OthersRun(p1, failed) then p1.(hasFailure := true) else OnFailure(p1)
  }

  // ------------------------------------------------------------------ runs

  /** What reaches the fetcher of one segment.  Data may carry the FinalBlockId or not. */
  datatype Event =
    | DataFor(segNo: nat, finalBlockId: Option<nat>)
    | NackFor(segNo: nat, reason: NackReason)
    | TimeoutFor(segNo: nat)
    | WakeFor(segNo: nat)

  /** Callbacks of a running fetcher find the slots in place. */
  ghost predicate WellBound(c: Config, p: Pipeline) {
    !p.isStopping ==>
      && |p.slots| == c.pipelineSize
      && forall k :: k in p.fetches ==>
           p.fetches[k].pipeNo < |p.slots| && p.slots[p.fetches[k].pipeNo].Some?
  }

  /** The fetcher reacts, and its callback runs in the pipeline. */
  function Dispatch(c: Config, p: Pipeline, segNo: nat, r: F.Reaction, finalBlockId: Option<nat>): Pipeline
    requires segNo in p.fetches && WellBound(c, p)
  {
    var pipeNo := p.fetches[segNo].pipeNo;
    var p1 := SetFetcher(p, segNo, r.fetcher);
    match r.report
    case Nothing => p1
    case GotData => HandleData(c, p1, segNo, pipeNo, finalBlockId)
    case GaveUp => HandleFail(p1, pipeNo)
  }

  function Step(c: Config, p: Pipeline, e: Event): Pipeline
    requires WellBound(c, p)
  {
    if e.segNo !in p.fetches then p
    else
      var f := p.fetches[e.segNo].fetcher;
      match e
      case DataFor(segNo, final) => Dispatch(c, p, segNo, F.HandleData(f), final)
      case NackFor(segNo, reason) => Dispatch(c, p, segNo, F.HandleNack(c.limits, f, reason), None)
      case TimeoutFor(segNo) => Dispatch(c, p, segNo, F.HandleTimeout(c.limits, f), None)
      case WakeFor(segNo) => SetFetcher(p, segNo, F.Wake(f))
  }

  /** The pipeline as constructed and configured by `run` with the discovered segment. */
  function Fresh(c: Config, finalBlockId: Option<nat>): Pipeline {
    Pipeline(false, finalBlockId.Some?, if finalBlockId.Some? then finalBlockId.value else 0, 0, false,
             seq(c.pipelineSize, _ => None), map[], [])
  }

  /** The loop of doRun from pipe `i` on; it ends at the first pipe with nothing to fetch. */
  function FillPipes(c: Config, p: Pipeline, i: nat): Pipeline
    requires |p.slots| == c.pipelineSize && i <= c.pipelineSize
    decreases c.pipelineSize - i
  {
    if i == c.pipelineSize then p
    else if !CanFetch(c, p) then FetchNextSegment(c, p, i)
    else FillPipes(c, FetchNextSegment(c, p, i), i + 1)
  }

  function Start(c: Config, finalBlockId: Option<nat>): Pipeline {
    FillPipes(c, Fresh(c, finalBlockId), 0)
  }
}
