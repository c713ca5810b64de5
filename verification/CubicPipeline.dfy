/** The CUBIC pipeline as an object whose handlers update its fields, proved against the
    state machine of AdaptiveSpec.dfy. */
module CubicPipeline {
  import C = CubicWindow
  import opened WindowPolicy
  import opened AdaptiveSpec
  import opened Network
  import opened Optional
  import opened Counting

  lemma RemoveOneMore<K, V>(m: map<K, V>, gone: set<K>, k: K)
    requires k !in gone
    ensures m - gone - {k} == m - (gone + {k}) && |gone + {k}| == |gone| + 1
  {
  }

  /** What is known about the content and how far it has been requested. */
  datatype Content = Content(hasFinalBlockId: bool, lastSegmentNo: nat, nextSegmentNo: nat)

  /** The round-trip bookkeeping of conservative window adaptation. */
  datatype Rounds = Rounds(highData: nat, highInterest: nat, recPoint: nat, nLossEvents: nat)

  datatype Retransmission = Retransmission(queue: seq<nat>, count: map<nat, nat>)

  datatype Failure = Failure(hasFailure: bool, failedSegNo: nat)

  class PipelineInterestsCubic {
    const options: Options

    var excludedSegmentNo: nat
    var isStopping: bool
    var content: Content
    var window: C.Window
    var rounds: Rounds
    var nInFlight: nat
    var nReceived: nat
    var segmentInfo: map<nat, SegmentState>
    var retx: Retransmission
    var failure: Failure

    /** The state of the state machine that the fields stand for. */
    ghost var model: Engine

    ghost predicate Valid()
      reads this
    {
      && options.Valid() && options.policy.Cubic? && window.cwnd > 0.0
      && (isStopping <==> model.outcome != Running)
      && model == Engine(
        model.outcome, content.hasFinalBlockId, content.lastSegmentNo, content.nextSegmentNo, CubicW(window),
        rounds.highData, rounds.highInterest, rounds.recPoint, rounds.nLossEvents, nInFlight, nReceived,
        segmentInfo, retx.queue, retx.count, failure.hasFailure, failure.failedSegNo, model.log)
    }

    constructor (options: Options)
      requires options.Valid() && options.policy.Cubic?
      ensures Valid() && this.options == options
      ensures model == Fresh(Config(options, excludedSegmentNo), None)
    {
      this.options := options;
      excludedSegmentNo, isStopping, content := 0, false, Content(false, 0, 0);
      window := C.Window(options.policy.cubic.initCwnd, options.policy.cubic.initSsthresh, 0.0);
      rounds, nInFlight, nReceived := Rounds(0, 0, 0, 0), 0, 0;
      segmentInfo, retx, failure := map[], Retransmission([], map[]), Failure(false, 0);
      model := Fresh(Config(options, 0), None);
    }

    /** PipelineInterests::run followed by doRun. */
    method Run(excluded: nat, finalBlockId: Option<nat>)
      requires Valid() && model == Fresh(Config(options, excludedSegmentNo), None)
      modifies this
      ensures Valid() && excludedSegmentNo == excluded
      ensures model == Start(Config(options, excluded), finalBlockId)
    {
      excludedSegmentNo := excluded;
      if finalBlockId.Some? {
        content := content.(hasFinalBlockId := true, lastSegmentNo := finalBlockId.value);
      }
      nReceived := nReceived + 1;
      model := Fresh(Config(options, excluded), finalBlockId).(nReceived := 1);
      var segNo := GetNextSegmentNo();
      SendInterest(segNo, false);
    }

    method Cancel(ghost why: Outcome)
      requires Valid() && why != Running
      modifies this
      ensures Valid() && excludedSegmentNo == old(excludedSegmentNo)
      ensures model == AdaptiveSpec.Cancel(old(model), why)
    {
      if isStopping {
        return;
      }
      isStopping := true;
      segmentInfo := map[];
      model := AdaptiveSpec.Cancel(model, why);
    }

    method OnFailure()
      requires Valid()
      modifies this
      ensures Valid() && excludedSegmentNo == old(excludedSegmentNo)
      ensures model == AdaptiveSpec.OnFailure(old(model))
    {
      if isStopping {
        return;
      }
      Cancel(Failed);
    }

    method GetNextSegmentNo() returns (segNo: nat)
      requires Valid()
      modifies this`content, this`model
      ensures Valid() && segNo == NextSegment(Config(options, excludedSegmentNo), old(model))
      ensures model == TakeNextSegment(Config(options, excludedSegmentNo), old(model))
    {
      if content.nextSegmentNo == excludedSegmentNo {
        content := content.(nextSegmentNo := content.nextSegmentNo + 1);
      }
      model := TakeNextSegment(Config(options, excludedSegmentNo), model);
      segNo := content.nextSegmentNo;
      content := content.(nextSegmentNo := content.nextSegmentNo + 1);
    }

    /** Drop one segment and its unit in flight. */
    method Forget(segNo: nat)
      modifies this`segmentInfo, this`nInFlight
      ensures segmentInfo == old(segmentInfo) - {segNo} && nInFlight == Minus(old(nInFlight), 1)
    {
      segmentInfo := segmentInfo - {segNo};
      if nInFlight > 0 {
        nInFlight := nInFlight - 1;
      }
    }

    method CancelInFlightSegmentsGreaterThan(segNo: nat)
      modifies this`segmentInfo, this`nInFlight
      ensures var beyond := set k | k in old(segmentInfo) && k > segNo;
              segmentInfo == old(segmentInfo) - beyond && nInFlight == Minus(old(nInFlight), |beyond|)
    {
      ghost var info, n := segmentInfo, nInFlight;
      var rest := segmentInfo.Keys;
      ghost var gone: set<nat> := {};
      while rest != {}
        invariant gone !! rest && rest <= info.Keys
        invariant forall k :: k in gone <==> k in info && k > segNo && k !in rest
        invariant segmentInfo == info - gone && nInFlight == Minus(n, |gone|)
      {
        var k :| k in rest;
        rest := rest - {k};
        if k > segNo {
          RemoveOneMore(info, gone, k);
          Forget(k);
          gone := gone + {k};
        }
      }
      assert gone == (set k | k in info && k > segNo);
    }

    method HandleFail(segNo: nat)
      requires Valid()
      modifies this
      ensures Valid() && excludedSegmentNo == old(excludedSegmentNo)
      ensures model == AdaptiveSpec.HandleFail(old(model), segNo)
    {
      if isStopping {
        return;
      }
      if content.hasFinalBlockId && segNo <= content.lastSegmentNo {
        OnFailure();
        return;
      }
      if !content.hasFinalBlockId {
        GiveUp(segNo);
      }
    }

    /** handleFail while the last segment is unknown. */
    method GiveUp(segNo: nat)
      requires Valid() && !isStopping && !content.hasFinalBlockId
      modifies this
      ensures Valid() && excludedSegmentNo == old(excludedSegmentNo)
      ensures model == AdaptiveSpec.HandleFail(old(model), segNo)
    {
      Forget(segNo);
      if segmentInfo == map[] {
        model := model.(segmentInfo := segmentInfo, nInFlight := nInFlight);
        OnFailure();
      } else {
        CancelInFlightSegmentsGreaterThan(segNo);
        failure := Failure(true, segNo);
        model := AdaptiveSpec.HandleFail(model, segNo);
      }
    }

    method SendInterest(segNo: nat, isRetransmission: bool)
      requires Valid()
      modifies this
      ensures Valid() && excludedSegmentNo == old(excludedSegmentNo)
      ensures model == AdaptiveSpec.SendInterest(Config(options, excludedSegmentNo), old(model), segNo, isRetransmission)
    {
      hide AdaptiveSpec.HandleFail;
      if isStopping {
        return;
      }
      if content.hasFinalBlockId && segNo > content.lastSegmentNo && !isRetransmission {
        return;
      }
      if !isRetransmission && failure.hasFailure {
        return;
      }
      if isRetransmission {
        Resend(segNo);
        return;
      }
      nInFlight := nInFlight + 1;
      rounds := rounds.(highInterest := segNo);
      if segNo !in segmentInfo {
        segmentInfo := segmentInfo[segNo := FirstTimeSent];
      }
      model := SendFirst(model, segNo);
    }

    /** The retransmission branch of sendInterest. */
    method Resend(segNo: nat)
      requires Valid() && !isStopping
      modifies this
      ensures Valid() && excludedSegmentNo == old(excludedSegmentNo)
      ensures model == AdaptiveSpec.Resend(Config(options, excludedSegmentNo), old(model), segNo)
    {
      hide AdaptiveSpec.HandleFail;
      if segNo !in retx.count {
        retx := retx.(count := retx.count[segNo := 1]);
      } else {
        retx := retx.(count := retx.count[segNo := retx.count[segNo] + 1]);
        if retx.count[segNo] > options.maxRetries {
          model := model.(retxCount := retx.count);
          HandleFail(segNo);
          return;
        }
      }
      nInFlight := nInFlight + 1;
      segmentInfo := segmentInfo[segNo := Retransmitted];
      model := AdaptiveSpec.Resend(Config(options, excludedSegmentNo), model, segNo);
    }

    method SchedulePackets()
      requires Valid()
      modifies this
      ensures Valid() && excludedSegmentNo == old(excludedSegmentNo)
      ensures model == AdaptiveSpec.SchedulePackets(Config(options, excludedSegmentNo), old(model))
    {
      var available: int := window.cwnd.Floor - nInFlight;
      while available > 0
        invariant Valid() && excludedSegmentNo == old(excludedSegmentNo)
        invariant ScheduleLoop(Config(options, excludedSegmentNo), model, available)
               == AdaptiveSpec.SchedulePackets(Config(options, excludedSegmentNo), old(model))
        decreases available, |retx.queue|
      {
        if retx.queue != [] {
          var segNo := retx.queue[0];
          retx := retx.(queue := retx.queue[1..]);
          model := model.(retxQueue := retx.queue);
          if segNo !in segmentInfo {
            continue;
          }
          SendInterest(segNo, true);
        } else {
          var segNo := GetNextSegmentNo();
          SendInterest(segNo, false);
        }
        available := available - 1;
      }
    }

    method DecreaseWindow()
      requires Valid()
      modifies this`window, this`model
      ensures Valid() && model == old(model).(window := WindowPolicy.DecreaseWindow(options, old(model).window))
    {
      if window.cwnd < window.lastMaxCwnd && options.policy.cubic.cubicFastConvergence {
        window := window.(lastMaxCwnd := window.cwnd * (2.0 - options.policy.cubic.cubicBeta) / 2.0);
      } else {
        window := window.(lastMaxCwnd := window.cwnd);
      }
      window := window.(cwnd := window.cwnd * (1.0 - options.policy.cubic.cubicBeta));
      window := window.(ssthresh := if 2.0 < window.cwnd then window.cwnd else 2.0);
      model := model.(window := WindowPolicy.DecreaseWindow(options, model.window));
    }

    method CubicUpdate(growth: C.Growth)
      requires Valid()
      modifies this`window, this`model
      ensures Valid() && model == old(model).(window := CubicW(window))
      ensures window == C.CubicUpdate(options.policy.cubic, old(window), growth)
    {
      var update := 0.0;
      if growth.target > window.cwnd {
        update := window.cwnd + (growth.target - window.cwnd) / window.cwnd;
      } else {
        update := window.cwnd + 0.01 / window.cwnd;
      }
      if options.policy.cubic.cubicTcpFriendliness {
        if growth.tcpCwnd > window.cwnd && growth.tcpCwnd > growth.target {
          update := window.cwnd + (growth.tcpCwnd - window.cwnd) / window.cwnd;
        }
      }
      window := window.(cwnd := update);
      model := model.(window := CubicW(window));
    }

    method IncreaseWindow(growth: C.Growth)
      requires Valid()
      modifies this`window, this`model
      ensures Valid() && model == old(model).(window := WindowPolicy.IncreaseWindow(options, old(model).window, growth))
    {
      if window.cwnd < window.ssthresh {
        window := window.(cwnd := window.cwnd + options.policy.cubic.aiStep);
        model := model.(window := CubicW(window));
      } else {
        CubicUpdate(growth);
      }
    }

    method HandleTimeout(timeoutCount: nat)
      requires Valid()
      modifies this
      ensures Valid() && excludedSegmentNo == old(excludedSegmentNo)
      ensures model == AdaptiveSpec.HandleTimeout(Config(options, excludedSegmentNo), old(model), timeoutCount)
    {
      hide WindowPolicy.DecreaseWindow, AdaptiveSpec.SchedulePackets, AdaptiveSpec.ReactToLoss;
      if timeoutCount == 0 {
        return;
      }
      ReactToLoss();
      nInFlight := if nInFlight > timeoutCount then nInFlight - timeoutCount else 0;
      model := model.(nInFlight := nInFlight);
      SchedulePackets();
    }

    /** Under conservative window adaptation, react to one timeout per round trip only. */
    method ReactToLoss()
      requires Valid()
      modifies this`rounds, this`window, this`model
      ensures Valid() && model == AdaptiveSpec.ReactToLoss(Config(options, excludedSegmentNo), old(model))
    {
      hide WindowPolicy.DecreaseWindow;
      if options.disableCwa || rounds.highData > rounds.recPoint {
        DecreaseWindow();
        rounds := rounds.(recPoint := rounds.highInterest, nLossEvents := rounds.nLossEvents + 1);
        model := model.(recPoint := rounds.recPoint, nLossEvents := rounds.nLossEvents,
                        log := model.log.(lossMarks := model.log.lossMarks + [|model.log.requests|],
                                          arrivalMarks := model.log.arrivalMarks + [|model.log.arrivals|]));
      }
    }

    /** `expired` lists the segments whose timer has expired, in the order of the traversal. */
    method CheckRto(expired: seq<nat>)
      requires Valid()
      modifies this
      ensures Valid() && excludedSegmentNo == old(excludedSegmentNo)
      ensures model == AdaptiveSpec.CheckRto(Config(options, excludedSegmentNo), old(model), expired)
    {
      if isStopping {
        return;
      }
      var timeoutCount := 0;
      for i := 0 to |expired|
        invariant Valid() && excludedSegmentNo == old(excludedSegmentNo)
        invariant ExpireTimers(model, expired[i..]) == ExpireTimers(old(model), expired)
        invariant timeoutCount + CountExpired(model, expired[i..]) == CountExpired(old(model), expired)
      {
        var segNo := expired[i];
        assert expired[i..][0] == segNo && expired[i..][1..] == expired[i + 1..];
        if segNo in segmentInfo && segmentInfo[segNo] != InRetxQueue && segmentInfo[segNo] != RetxReceived {
          retx := retx.(queue := retx.queue + [segNo]);
          segmentInfo := segmentInfo[segNo := InRetxQueue];
          model := Enqueue(model, segNo);
          timeoutCount := timeoutCount + 1;
        }
      }
      HandleTimeout(timeoutCount);
    }

    method HandleData(segNo: nat, finalBlockId: Option<nat>, growth: C.Growth)
      requires Valid()
      modifies this
      ensures Valid() && excludedSegmentNo == old(excludedSegmentNo)
      ensures model == AdaptiveSpec.HandleData(Config(options, excludedSegmentNo), old(model), segNo, finalBlockId, growth)
    {
      hide AdaptiveSpec.Receive;
      if isStopping {
        return;
      }
      if !content.hasFinalBlockId && finalBlockId.Some? {
        content := content.(hasFinalBlockId := true, lastSegmentNo := finalBlockId.value);
        CancelInFlightSegmentsGreaterThan(content.lastSegmentNo);
        model := model.(lastSegmentNo := finalBlockId.value, hasFinalBlockId := true,
                        segmentInfo := segmentInfo, nInFlight := nInFlight);
        if failure.hasFailure && content.lastSegmentNo >= failure.failedSegNo {
          OnFailure();
          return;
        } else {
          failure := failure.(hasFailure := false);
          model := model.(hasFailure := false);
        }
      }
      Receive(segNo, growth);
    }

    /** The rest of handleData, once an arriving FinalBlockId has been dealt with. */
    method Receive(segNo: nat, growth: C.Growth)
      requires Valid() && !isStopping
      modifies this
      ensures Valid() && excludedSegmentNo == old(excludedSegmentNo)
      ensures model == AdaptiveSpec.Receive(Config(options, excludedSegmentNo), old(model), segNo, growth)
    {
      hide AdaptiveSpec.Accept;
      if rounds.highData < segNo {
        rounds := rounds.(highData := segNo);
      }
      model := RaiseHighData(model, segNo);
      if segNo !in segmentInfo {
        return;
      }
      if segmentInfo[segNo] == RetxReceived {
        segmentInfo := segmentInfo - {segNo};
        model := model.(segmentInfo := segmentInfo);
        return;
      }
      Accept(segNo, growth);
    }

    /** Book a segment that had not been received yet, deliver it, and use the window. */
    method Accept(segNo: nat, growth: C.Growth)
      requires Valid() && !isStopping && segNo in segmentInfo && segmentInfo[segNo] != RetxReceived
      modifies this
      ensures Valid() && excludedSegmentNo == old(excludedSegmentNo)
      ensures model == AdaptiveSpec.Accept(Config(options, excludedSegmentNo), old(model), segNo, growth)
    {
      hide AdaptiveSpec.Book, AdaptiveSpec.SchedulePackets;
      Book(segNo, growth);
      if content.hasFinalBlockId && nReceived - 1 >= content.lastSegmentNo {
        Cancel(Succeeded);
      } else {
        SchedulePackets();
      }
    }

    method Book(segNo: nat, growth: C.Growth)
      requires Valid() && segNo in segmentInfo && segmentInfo[segNo] != RetxReceived
      modifies this`nInFlight, this`nReceived, this`segmentInfo, this`window, this`model
      ensures Valid() && model == AdaptiveSpec.Book(Config(options, excludedSegmentNo), old(model), segNo, growth)
    {
      hide WindowPolicy.IncreaseWindow;
      var state := segmentInfo[segNo];
      if state != InRetxQueue && nInFlight > 0 {
        nInFlight := nInFlight - 1;
      }
      nReceived := nReceived + 1;
      if state == FirstTimeSent || state == InRetxQueue {
        segmentInfo := segmentInfo - {segNo};
      } else {
        segmentInfo := segmentInfo[segNo := RetxReceived];
      }
      model := model.(nInFlight := nInFlight, nReceived := nReceived, segmentInfo := segmentInfo);
      IncreaseWindow(growth);
      model := model.(log := model.log.(delivered := model.log.delivered + [segNo]));
    }

    method HandleNack(segNo: nat, reason: NackReason)
      requires Valid()
      modifies this
      ensures Valid() && excludedSegmentNo == old(excludedSegmentNo)
      ensures model == AdaptiveSpec.HandleNack(Config(options, excludedSegmentNo), old(model), segNo, reason)
    {
      if isStopping {
        return;
      }
      match reason
      case Duplicate =>
      case Congestion =>
        retx := retx.(queue := retx.queue + [segNo]);
        segmentInfo := segmentInfo[segNo := InRetxQueue];
        model := Enqueue(model, segNo);
        HandleTimeout(1);
      case OtherReason =>
        HandleFail(segNo);
    }

    method HandleLifetimeExpiration(segNo: nat)
      requires Valid()
      modifies this
      ensures Valid() && excludedSegmentNo == old(excludedSegmentNo)
      ensures model == AdaptiveSpec.HandleLifetimeExpiration(Config(options, excludedSegmentNo), old(model), segNo)
    {
      if isStopping {
        return;
      }
      retx := retx.(queue := retx.queue + [segNo]);
      segmentInfo := segmentInfo[segNo := InRetxQueue];
      model := Enqueue(model, segNo);
      HandleTimeout(1);
    }
  }
}
