/** The fetching engine that the CUBIC, AIMD and BIC pipelines share, as a state machine over
    values: one function per handler.  The three differ in their window policy, and in that
    only CUBIC asks whether a segment is still tracked when its Data arrives.  The class in
    CubicPipeline.dfy is proved against these functions. */
module AdaptiveSpec {
  import opened WindowPolicy
  import C = CubicWindow
  import opened Counting
  import opened Network
  import opened Optional

  datatype SegmentState = FirstTimeSent | InRetxQueue | Retransmitted | RetxReceived

  datatype Outcome = Running | Succeeded | Failed

  /** What the engine has done so far; no handler reads it. */
  datatype Log = Log(
    requests: seq<nat>,     // segments in first-time Interests, in sending order
    resent: seq<nat>,       // segments in retransmitted Interests
    arrivals: seq<nat>,     // segments in Data, duplicates included
    delivered: seq<nat>,    // segments passed to onData
    failures: seq<nat>,     // segments given up while the last segment was unknown
    lossMarks: seq<nat>,    // number of first-time Interests at each window decrease
    arrivalMarks: seq<nat>) // number of arrivals at each window decrease

  datatype Engine = Engine(
    outcome: Outcome,
    hasFinalBlockId: bool,
    lastSegmentNo: nat,
    nextSegmentNo: nat,
    window: Window,
    highData: nat,
    highInterest: nat,
    recPoint: nat,
    nLossEvents: nat,
    nInFlight: nat,
    nReceived: nat,
    segmentInfo: map<nat, SegmentState>,
    retxQueue: seq<nat>,
    retxCount: map<nat, nat>,
    hasFailure: bool,
    failedSegNo: nat,
    log: Log)
  {
    predicate IsStopping() { outcome != Running }
  }

  /** One pipeline: its options and the segment that version discovery already fetched. */
  datatype Config = Config(options: Options, excluded: nat)
  {
    ghost predicate Fits(w: Window) { options.Valid() && WindowPolicy.Fits(options, w) }
  }

  /** The fields that giving up on or requesting segments never touches. */
  ghost predicate SameBooks(s: Engine, r: Engine) {
    && r.window == s.window && r.highData == s.highData && r.recPoint == s.recPoint
    && r.nLossEvents == s.nLossEvents && r.nReceived == s.nReceived
    && r.hasFinalBlockId == s.hasFinalBlockId && r.lastSegmentNo == s.lastSegmentNo
    && r.log.delivered == s.log.delivered && r.log.lossMarks == s.log.lossMarks
    && r.log.arrivalMarks == s.log.arrivalMarks
    && r.log.arrivals == s.log.arrivals && s.log.requests <= r.log.requests
  }

  function Cancel(s: Engine, why: Outcome): Engine
    requires why != Running
  {
    if s.IsStopping() then s else s.(outcome := why, segmentInfo := map[])
  }

  function OnFailure(s: Engine): Engine { Cancel(s, Failed) }

  function CancelInFlightSegmentsGreaterThan(s: Engine, segNo: nat): Engine {
    var beyond := set k | k in s.segmentInfo && k > segNo;
    s.(segmentInfo := s.segmentInfo - beyond, nInFlight := Minus(s.nInFlight, |beyond|))
  }

  function HandleFail(s: Engine, segNo: nat): (r: Engine)
    ensures SameBooks(s, r)
  {
    if s.IsStopping() then s
    else if s.hasFinalBlockId then
      if segNo <= s.lastSegmentNo then OnFailure(s) else s
    else
      var s1 := s.(segmentInfo := s.segmentInfo - {segNo}, nInFlight := Minus(s.nInFlight, 1));
      if s1.segmentInfo == map[] then OnFailure(s1)
      else
        CancelInFlightSegmentsGreaterThan(s1, segNo).(
          hasFailure := true, failedSegNo := segNo,
          log := s.log.(failures := s.log.failures + [segNo]))
  }

  /** How often `segNo` would have been retransmitted, counting the attempt at hand. */
  function Attempt(s: Engine, segNo: nat): nat {
    if segNo in s.retxCount then s.retxCount[segNo] + 1 else 1
  }

  /** The first retransmission is always allowed. */
  predicate MayRetry(c: Config, s: Engine, segNo: nat) {
    segNo !in s.retxCount || Attempt(s, segNo) <= c.options.maxRetries
  }

  function SendFirst(s: Engine, segNo: nat): (r: Engine)
    ensures SameBooks(s, r)
  {
    if s.IsStopping() then s
    else if s.hasFinalBlockId && segNo > s.lastSegmentNo then s
    else if s.hasFailure then s
    else
      s.(nInFlight := s.nInFlight + 1, highInterest := segNo,
         segmentInfo := if segNo in s.segmentInfo then s.segmentInfo
                        else s.segmentInfo[segNo := FirstTimeSent],
         log := s.log.(requests := s.log.requests + [segNo]))
  }

  function Resend(c: Config, s: Engine, segNo: nat): (r: Engine)
    ensures SameBooks(s, r)
  {
    if s.IsStopping() then s
    else
      var n := Attempt(s, segNo);
      var s1 := s.(retxCount := s.retxCount[segNo := n]);
      if !MayRetry(c, s, segNo) then HandleFail(s1, segNo)
      else
        s1.(nInFlight := s.nInFlight + 1,
            segmentInfo := s.segmentInfo[segNo := Retransmitted],
            log := s.log.(resent := s.log.resent + [segNo]))
  }

  function SendInterest(c: Config, s: Engine, segNo: nat, isRetransmission: bool): (r: Engine)
    ensures SameBooks(s, r)
  {
    if isRetransmission then Resend(c, s, segNo) else SendFirst(s, segNo)
  }

  /** The segment that getNextSegmentNo returns. */
  function NextSegment(c: Config, s: Engine): nat {
    if s.nextSegmentNo == c.excluded then s.nextSegmentNo + 1 else s.nextSegmentNo
  }

  function TakeNextSegment(c: Config, s: Engine): Engine {
    s.(nextSegmentNo := NextSegment(c, s) + 1)
  }

  function SendNext(c: Config, s: Engine): (r: Engine)
    ensures SameBooks(s, r)
  {
    SendInterest(c, TakeNextSegment(c, s), NextSegment(c, s), false)
  }

  /** The loop of schedulePackets with `available` units of window left.  A queued segment
      that is no longer tracked costs no unit. */
  function ScheduleLoop(c: Config, s: Engine, available: int): (r: Engine)
    ensures SameBooks(s, r)
    decreases if available > 0 then available else 0, |s.retxQueue|
  {
    if available <= 0 then s
    else if s.retxQueue != [] then
      var segNo := s.retxQueue[0];
      var s1 := s.(retxQueue := s.retxQueue[1..]);
      if segNo !in s.segmentInfo then ScheduleLoop(c, s1, available)
      else ScheduleLoop(c, SendInterest(c, s1, segNo, true), available - 1)
    else ScheduleLoop(c, SendNext(c, s), available - 1)
  }

  function AvailableWindow(s: Engine): int { s.window.Cwnd().Floor - s.nInFlight }

  function SchedulePackets(c: Config, s: Engine): (r: Engine)
    ensures SameBooks(s, r)
  {
    ScheduleLoop(c, s, AvailableWindow(s))
  }

  /** Whether a timeout is a new loss event under conservative window adaptation. */
  predicate IsLossEvent(c: Config, s: Engine) {
    c.options.disableCwa || s.highData > s.recPoint
  }

  function ReactToLoss(c: Config, s: Engine): (r: Engine)
    requires c.Fits(s.window)
    ensures c.Fits(r.window)
  {
    if IsLossEvent(c, s) then
      s.(recPoint := s.highInterest, window := DecreaseWindow(c.options, s.window),
         nLossEvents := s.nLossEvents + 1,
         log := s.log.(lossMarks := s.log.lossMarks + [|s.log.requests|],
                      arrivalMarks := s.log.arrivalMarks + [|s.log.arrivals|]))
    else s
  }

  function HandleTimeout(c: Config, s: Engine, timeoutCount: nat): (r: Engine)
    requires c.Fits(s.window)
    ensures c.Fits(r.window)
  {
    if timeoutCount == 0 then s
    else
      var s1 := ReactToLoss(c, s);
      SchedulePackets(c, s1.(nInFlight := Minus(s1.nInFlight, timeoutCount)))
  }

  /** Queue the segment for retransmission. */
  function Enqueue(s: Engine, segNo: nat): Engine {
    s.(retxQueue := s.retxQueue + [segNo], segmentInfo := s.segmentInfo[segNo := InRetxQueue])
  }

  /** Whether checkRto looks at the timer of the segment. */
  predicate TimerRuns(s: Engine, segNo: nat) {
    segNo in s.segmentInfo && s.segmentInfo[segNo] != InRetxQueue && s.segmentInfo[segNo] != RetxReceived
  }

  /** The loop of checkRto.  `expired` lists the segments whose timer has expired, in the
      order in which the map is traversed. */
  function ExpireTimers(s: Engine, expired: seq<nat>): (r: Engine)
    ensures r == s.(retxQueue := r.retxQueue, segmentInfo := r.segmentInfo)
    decreases |expired|
  {
    if expired == [] then s
    else ExpireTimers(if TimerRuns(s, expired[0]) then Enqueue(s, expired[0]) else s, expired[1..])
  }

  function CountExpired(s: Engine, expired: seq<nat>): nat
    decreases |expired|
  {
    if expired == [] then 0
    else if TimerRuns(s, expired[0]) then 1 + CountExpired(Enqueue(s, expired[0]), expired[1..])
    else CountExpired(s, expired[1..])
  }

  function CheckRto(c: Config, s: Engine, expired: seq<nat>): (r: Engine)
    requires c.Fits(s.window)
    ensures c.Fits(r.window)
  {
    if s.IsStopping() then s
    else HandleTimeout(c, ExpireTimers(s, expired), CountExpired(s, expired))
  }

  /** The first FinalBlockId seen: stop fetching beyond it, and settle an earlier failure. */
  function LearnFinalBlockId(s: Engine, last: nat): Engine {
    var s1 := CancelInFlightSegmentsGreaterThan(s.(lastSegmentNo := last, hasFinalBlockId := true), last);
    if s1.hasFailure && last >= s1.failedSegNo then OnFailure(s1)
    else s1.(hasFailure := false)
  }

  /** The books after a segment has been accepted, before the window is used again. */
  function Book(c: Config, s: Engine, segNo: nat, g: C.Growth): Engine
    requires segNo in s.segmentInfo && s.segmentInfo[segNo] != RetxReceived
    requires c.Fits(s.window)
  {
    var state := s.segmentInfo[segNo];
    s.(nInFlight := if state != InRetxQueue then Minus(s.nInFlight, 1) else s.nInFlight,
       nReceived := s.nReceived + 1,
       segmentInfo := if state == Retransmitted then s.segmentInfo[segNo := RetxReceived]
                      else s.segmentInfo - {segNo},
       window := IncreaseWindow(c.options, s.window, g),
       log := s.log.(delivered := s.log.delivered + [segNo]))
  }

  /** A tracked segment that had not been received yet arrives. */
  function Accept(c: Config, s: Engine, segNo: nat, g: C.Growth): (r: Engine)
    requires segNo in s.segmentInfo && s.segmentInfo[segNo] != RetxReceived
    requires c.Fits(s.window)
    ensures c.Fits(r.window)
  {
    var s1 := Book(c, s, segNo, g);
    if s1.hasFinalBlockId && s1.nReceived - 1 >= s1.lastSegmentNo then Cancel(s1, Succeeded)
    else SchedulePackets(c, s1)
  }

  function RaiseHighData(s: Engine, segNo: nat): Engine {
    s.(highData := if s.highData < segNo then segNo else s.highData,
       log := s.log.(arrivals := s.log.arrivals + [segNo]))
  }

  /** The map's subscript makes an entry, in its first state, for a segment it does not hold. */
  function Subscripted(s: Engine, segNo: nat): Engine {
    s.(segmentInfo := s.segmentInfo[segNo := FirstTimeSent])
  }

  function Receive(c: Config, s: Engine, segNo: nat, g: C.Growth): (r: Engine)
    requires c.Fits(s.window)
    ensures c.Fits(r.window)
  {
    var s1 := RaiseHighData(s, segNo);
    if segNo !in s1.segmentInfo then
      if c.options.Guarded() then s1 else Accept(c, Subscripted(s1, segNo), segNo, g)
    else if s1.segmentInfo[segNo] == RetxReceived then s1.(segmentInfo := s1.segmentInfo - {segNo})
    else Accept(c, s1, segNo, g)
  }

  function HandleData(c: Config, s: Engine, segNo: nat, finalBlockId: Option<nat>, g: C.Growth): (r: Engine)
    requires c.Fits(s.window)
    ensures c.Fits(r.window)
  {
    if s.IsStopping() then s
    else if !s.hasFinalBlockId && finalBlockId.Some? then
      var s1 := LearnFinalBlockId(s, finalBlockId.value);
      if s1.IsStopping() then s1 else Receive(c, s1, segNo, g)
    else Receive(c, s, segNo, g)
  }

  function HandleLifetimeExpiration(c: Config, s: Engine, segNo: nat): (r: Engine)
    requires c.Fits(s.window)
    ensures c.Fits(r.window)
  {
    if s.IsStopping() then s else HandleTimeout(c, Enqueue(s, segNo), 1)
  }

  function HandleNack(c: Config, s: Engine, segNo: nat, reason: NackReason): (r: Engine)
    requires c.Fits(s.window)
    ensures c.Fits(r.window)
  {
    if s.IsStopping() then s
    else
      match reason
      case Duplicate => s
      case Congestion => HandleTimeout(c, Enqueue(s, segNo), 1)
      case OtherReason => HandleFail(s, segNo)
  }

  // ------------------------------------------------------------------ runs

  datatype Event =
    | DataArrives(segNo: nat, finalBlockId: Option<nat>, growth: C.Growth)
    | NackArrives(segNo: nat, reason: NackReason)
    | LifetimeExpires(segNo: nat)
    | RtoTick(expired: seq<nat>)

  function Step(c: Config, s: Engine, e: Event): (r: Engine)
    requires c.Fits(s.window)
    ensures c.Fits(r.window)
  {
    match e
    case DataArrives(segNo, final, g) => HandleData(c, s, segNo, final, g)
    case NackArrives(segNo, reason) => HandleNack(c, s, segNo, reason)
    case LifetimeExpires(segNo) => HandleLifetimeExpiration(c, s, segNo)
    case RtoTick(expired) => CheckRto(c, s, expired)
  }

  /** The engine as constructed and configured by `run` with the discovered segment. */
  function Fresh(c: Config, finalBlockId: Option<nat>): Engine
    requires c.options.Valid()
  {
    Engine(Running, finalBlockId.Some?, if finalBlockId.Some? then finalBlockId.value else 0, 0,
           InitialWindow(c.options),
           0, 0, 0, 0, 0, 0, map[], [], map[], false, 0, Log([], [], [], [], [], [], []))
  }

  /** doRun: count the excluded segment as received and send the first Interest. */
  function Start(c: Config, finalBlockId: Option<nat>): (r: Engine)
    requires c.options.Valid()
    ensures c.Fits(r.window)
  {
    SendNext(c, Fresh(c, finalBlockId).(nReceived := 1))
  }

  /** The state after a whole sequence of events. */
  function Run(c: Config, s: Engine, events: seq<Event>): (r: Engine)
    requires c.Fits(s.window)
    ensures c.Fits(r.window)
    decreases |events|
  {
    if events == [] then s else Run(c, Step(c, s, events[0]), events[1..])
  }
}
