# A verified model of ndn-tools: segmented transfer and the public-key information base

The project models two parts of ndn-tools and proves what they promise.

**Segmented transfer (`tools/chunks`).** A producer cuts its input into segments, a pipeline of
Interests fetches them over a network that loses, repeats, delays and reorders, and a consumer
writes them out in order.

- `Producer.dfy`, `Consumer.dfy`: cutting the input, the store, in-order output.
- `DataFetcherSpec.dfy`, `FixedWindowSpec.dfy`: one fetcher and the fixed-window pipeline as state
  machines over values. `FixedWindowInvariant.dfy`, `FixedWindowTheorems.dfy` and
  `FixedWindowFailures.dfy` prove what they keep over every run; `DataFetcher.dfy` and
  `FixedWindowPipeline.dfy` are the objects, proved against the state machines. `Transfer.dfy` puts
  producer, pipeline and consumer together.
- `AdaptiveSpec.dfy`: the engine that the CUBIC, AIMD and BIC pipelines share; `WindowPolicy.dfy`
  their three window policies behind one interface, from `CubicWindow.dfy`, `AimdWindow.dfy` and
  `BicWindow.dfy` (section 3.1 of RFC 5681), with `real` for `double`.
  `AdaptiveInvariant.dfy`, `AdaptiveTheorems.dfy` and `AdaptiveProgress.dfy` prove what it keeps
  over every run of any of the three, `AdaptiveExactness.dfy` what each event does in every state
  that a run reaches; `AdaptiveLimits.dfy` has runs that show where the promises stop.
  `AimdInvariant.dfy` and `AimdEngine.dfy` prove what becomes of delivery in AIMD and BIC, which
  lack the duplicate guard of CUBIC. `CubicPipeline.dfy` is the object of the CUBIC pipeline, and
  `AdaptiveTransfer.dfy` adds producer and consumer.
- `RttEstimator.dfy`: the RTT estimator (section 2 of RFC 6298, Appendix G of RFC 7323).

**The PIB (`tools/pib`).**

- `PibTable.dfy`: one table with its unique index and its triggers; `PibDbSpec.dfy` the three
  tables with their cascades; `PibStore.dfy` the same store by name only; `PibDbTheorems.dfy` that
  the first refines the second and keeps its invariant; `PibDatabase.dfy` the object with its
  statements, cascades row by row, and signals.
- `KeyCache.dfy`, `PibValidator.dfy`, `CertPublisher.dfy`: the cache, the validator and the
  publisher, which follow the database through its signals only.
- `Tlv.dfy`, `PibEncoding.dfy`, `PibParams.dfy`: the Type-Length-Value formats (section
  "Type-Length-Value (TLV) Encoding" of the NDN Packet Format Specification) and their decoders;
  `PibFormats.dfy` exactly what these accept; `PibObjects.dfy` the prepending encoders and
  stepping decoders as objects.

`dafny verify dfyconfig.toml` checks the whole project.

## How to read the theorems

Runs are arbitrary sequences of events; every clock, timer and answer is an event, and nothing is
assumed about their order. Histories (requests, retransmissions, deliveries, losses, signals) are
part of the states, so that theorems can speak about whole runs.

For the adaptive engine, `AdaptiveInvariant.Allowed` is the assumption on the network: answers come
only for requested segments and Data only for segments of the content; a Nack other than a
duplicate one, or a lifetime expiry, reaches a segment only while an Interest of its is in flight.
Data may be delayed and reordered freely, and for CUBIC duplicated freely; for AIMD and BIC `Allowed`
asks that Data be for a segment still tracked, and `AimdEngine.DeliversOnceExactly` and
`AimdEngine.SucceedsWithAllExactly` say exactly what is lost without that.
`AdaptiveLimits.ExpiryWhileQueuedMiscounts` shows what goes wrong with expiries out of turn, and
`AdaptiveLimits.ExpiryBalancesExactly` when. For the fixed window, `FixedWindowInvariant.Allowed`
only says that Data are the producer's.

The options are such that no window update divides by zero: `initCwnd > 0`, `aiStep > 0` and
`0 <= cubicBeta < 1` for CUBIC, `initCwnd >= 1` for AIMD, positive windows and factor for BIC
(`WindowPolicy.Options.Valid`).

Exceptions are results: a Boolean or an `Option`. Row ids that SQLite chooses, and signals' order
among rows, are arbitrary.

## Where the code does not do what it says or what one would expect

The model follows the code.

- `tools/pib/pib-db.hpp` promises that `addIdentity` returns 0 when the insert fails; it returns the
  id of the row inserted last, in whatever table (`PibDbTheorems.AddIdentityReturns`, with an input
  in `PibDbTheorems.FailedAddReturnsAnotherRow`; since the PIB was empty, it never returns 0:
  `PibDbTheorems.FailedAddNeverReturnsZero`).
- `PibValidator` takes a maximal cache size, 1000 by default, and never passes it on: the cache has
  its own default capacity of 100 (`PibValidation.PibValidator.constructor`).
- `DataFetcher` doubles its backoff on congestion Nacks, but every Interest it sends resets the
  doubling, so that it always waits one millisecond (`DataFetcherSpec.BackoffNeverGrows`).
- The fixed-window pipeline notes a failure while the last segment is unknown and decides later;
  but the note is never cleared, so that the next Data is fatal even when it completes the content
  and shows that the failed segment lies beyond it (`FixedWindowFailures.FailureBeyondTheEndIsFatal`;
  exactly when Data is fatal: `FixedWindowFailures.DataStopsExactly`).
- The adaptive pipelines check for completion only when Data arrives, so that content of one
  segment never completes (`AdaptiveProgress.OneSegmentHangs`).
- While the last segment is unknown, the adaptive pipelines ask whether any segment is left before
  they cancel those that follow a failed one, so that they can be left running with nothing in
  flight (`AdaptiveLimits.GivingUpCanWedge`; exactly when: `AdaptiveProgress.GivingUpWedgesExactly`).
  With a failure pending they request nothing new, with the same end
  (`AdaptiveLimits.UnknownEndCanWedge`; exactly when: `AdaptiveProgress.AcceptingWedgesExactly`).
- AIMD and BIC deliver and count again the Data of a segment they no longer track, and can stop in
  success with a segment missing (`AimdEngine.DuplicateEndsTransferEarly`; exactly when:
  `AimdEngine.SucceedsWithAllExactly`).

## Model

| member | source | states |
|---|---|---|
| Transfer.EndToEnd | tools/chunks/putchunks/producer.cpp:111-155 | Fixed window: for every input, segment size, pipeline size, retry limits, discovered segment and order of Data, Nacks and timeouts, the consumer's output is a prefix of the input made of its first pieces, and the whole input once no fetcher runs and nothing has failed |
| Transfer.PiecesComeOutInOrder | tools/chunks/catchunks/consumer.cpp:54-104 | The same for any content whose packets may or may not name the last segment: the output is the pieces up to the first one still missing |
| Transfer.StepDelivers | tools/chunks/catchunks/pipeline-interests-fixed-window.cpp:114-147 | The pipeline passes on exactly the Data that a running fetcher waits for, once, and nothing else |
| AdaptiveTransfer.EndToEnd | tools/chunks/catchunks/pipeline-interests-cubic.cpp:220-318 | CUBIC, AIMD and BIC, content of any size: with Data lost, delayed and reordered, and for CUBIC duplicated, the output is a prefix of the input, and all of it after the success stop or when the discovered segment is the whole content |
| Producer.ChunksMakeUpInput | tools/chunks/putchunks/producer.cpp:121-138 | The segments put together are the input, all but the last are full, and none is empty unless the input is |
| Producer.Producer.constructor | tools/chunks/putchunks/producer.cpp:33-56 | The store holds one packet for each piece, numbered from 0 and naming the last one |
| Producer.Producer.PopulateStore | tools/chunks/putchunks/producer.cpp:111-144 | Reading and the second pass over the store give that store; an empty input gives one empty packet |
| Producer.Producer.ReadInput | tools/chunks/putchunks/producer.cpp:119-132 | The read loop stores the pieces in order, also when the input ends on a segment boundary |
| Producer.Producer.OnInterest | tools/chunks/putchunks/producer.cpp:89-96 | A segment of the content is answered with its genuine packet, which names the last segment; others are not answered |
| Consumer.OutputIsInOrder | tools/chunks/catchunks/consumer.cpp:74-104 | As long as no segment comes again after it was printed, the output is the pieces up to the first missing one |
| Consumer.BlockedExactlyWhenLate | tools/chunks/catchunks/consumer.cpp:95-104 | The consumer is blocked for good if and only if some segment came again after it was printed |
| Consumer.LateDuplicateBlocks | tools/chunks/catchunks/consumer.cpp:95-104 | Once blocked, nothing is ever printed again |
| Consumer.DistinctIsTimely | tools/chunks/catchunks/consumer.cpp:85-86 | Exactly-once delivery is enough for the consumer |
| Consumer.Consumer.OnDataValidated | tools/chunks/catchunks/consumer.cpp:74-87 | Refuses an application Nack and changes nothing; else buffers the segment and writes what can be written |
| Consumer.Consumer.WriteInOrderData | tools/chunks/catchunks/consumer.cpp:95-104 | Writes and erases the longest run of segments from the next one on, looking at the smallest buffered one only |
| DataFetcherSpec.FetcherIsBounded | tools/chunks/catchunks/data-fetcher.cpp:73-178 | Whatever happens to it, a fetcher with finite limits sends at most 1 + maxNackRetries + maxTimeoutRetries Interests and runs at most one callback |
| DataFetcherSpec.FetcherRunsExactly | tools/chunks/catchunks/data-fetcher.cpp:83-178 | After any history a new fetcher runs if and only if there was no Data, no cancellation and no Nack but for a duplicate or congestion, and Nacks and timeouts are within their limits, if finite; it has then sent one Interest at the start and one for each Nack and timeout, less those still scheduled; stopped but not cancelled, it has run one callback |
| DataFetcherSpec.ReportsExactly | tools/chunks/catchunks/data-fetcher.cpp:93-178 | After any history an event makes the fetcher give up if and only if it runs and the event is another Nack, or a Nack or timeout one more than its finite limit allows; Data is reported if and only if it runs |
| DataFetcherSpec.CancelledIsSilent | tools/chunks/catchunks/data-fetcher.cpp:73-81 | Once cancelled while running, a fetcher never sends again |
| DataFetcherSpec.BackoffDoubles | tools/chunks/catchunks/data-fetcher.cpp:127-136 | Were no Interest sent in between, congestion Nacks would wait 1, 2, 4, ... milliseconds, at most ten seconds |
| DataFetcherSpec.BackoffNeverGrows | tools/chunks/catchunks/data-fetcher.cpp:83-136 | Whenever an Interest is out, a congestion Nack makes the fetcher wait exactly one millisecond |
| DataFetcher.DataFetcher.constructor | tools/chunks/catchunks/data-fetcher.cpp:37-71 | A new fetcher runs and has sent its first Interest |
| DataFetcher.DataFetcher.ExpressInterest | tools/chunks/catchunks/data-fetcher.cpp:83-91 | Sends an Interest and resets the congestion count |
| DataFetcher.DataFetcher.Cancel | tools/chunks/catchunks/data-fetcher.cpp:73-81 | Stops a running fetcher and drops its scheduled retries; leaves any other alone |
| DataFetcher.DataFetcher.HandleData | tools/chunks/catchunks/data-fetcher.cpp:93-102 | Stops and reports Data if running |
| DataFetcher.DataFetcher.HandleNack | tools/chunks/catchunks/data-fetcher.cpp:104-153 | Retries at once, schedules a retry or gives up, by the reason and the limit |
| DataFetcher.DataFetcher.HandleTimeout | tools/chunks/catchunks/data-fetcher.cpp:155-178 | Retries within the limit, else gives up: what `DataFetcherSpec.FetcherRunsExactly` and `ReportsExactly` are about |
| FixedWindowInvariant.StepKeeps | tools/chunks/catchunks/pipeline-interests-fixed-window.cpp:114-180 | Every event keeps: one fetcher a segment, running ones in their slots, nothing running after a stop, each segment delivered once, a failure pending only while the last segment is unknown and a fetcher runs |
| FixedWindowInvariant.StartKeeps | tools/chunks/catchunks/pipeline-interests-fixed-window.cpp:49-60 | doRun establishes it |
| FixedWindowTheorems.DeliveredAtMostOnce | tools/chunks/catchunks/pipeline-interests-fixed-window.cpp:114-125 | Over every run each segment is delivered at most once, only of the content, never the excluded one |
| FixedWindowTheorems.QuietMeansComplete | tools/chunks/catchunks/pipeline-interests-fixed-window.cpp:62-180 | If no fetcher runs and the pipeline has not stopped, the last segment is known, nothing has failed, and exactly the segments but the excluded one have been delivered |
| FixedWindowTheorems.FailurePendsOnlyWhileUnknown | tools/chunks/catchunks/pipeline-interests-fixed-window.cpp:158-179 | A pending failure means an unknown last segment and a running fetcher |
| FixedWindowTheorems.FailureStopsFollowing | tools/chunks/catchunks/pipeline-interests-fixed-window.cpp:158-179 | With the last segment unknown, giving up on a segment stops all that follow it, and stops the pipeline if and only if none before it is being fetched |
| FixedWindowFailures.DataStopsExactly | tools/chunks/catchunks/pipeline-interests-fixed-window.cpp:62-147 | In every reachable state, Data that a running fetcher takes in stops the pipeline if and only if a failure is pending |
| FixedWindowFailures.FailureBeyondTheEndIsFatal | tools/chunks/catchunks/pipeline-interests-fixed-window.cpp:68-71 | A run in which a segment beyond the end fails and the next Data, which completes the content and names the end, stops the pipeline |
| FixedWindowTheorems.StepMeasure | tools/chunks/catchunks/pipeline-interests-fixed-window.cpp:62-180 | With finite limits and the last segment known, every answer that a running fetcher takes in strictly decreases a natural number |
| FixedWindowTheorems.FixedWindowTerminates | tools/chunks/catchunks/pipeline-interests-fixed-window.cpp:49-180 | No run takes in more than (last + 1) * (2 + maxNackRetries + maxTimeoutRetries) answers, and after that many no fetcher runs |
| FixedWindowPipeline.AlwaysSeated | tools/chunks/catchunks/pipeline-interests-fixed-window.cpp:96-98 | In every reachable state callbacks find their slot, so that the precondition of Handle always holds |
| FixedWindowPipeline.PipelineInterestsFixedWindow.Run | tools/chunks/catchunks/pipeline-interests.cpp:46-61 | run with the discovered segment starts the state machine |
| FixedWindowPipeline.PipelineInterestsFixedWindow.DoRun | tools/chunks/catchunks/pipeline-interests-fixed-window.cpp:49-60 | Fills the pipes in order up to the first that has nothing to fetch |
| FixedWindowPipeline.PipelineInterestsFixedWindow.FetchNextSegment | tools/chunks/catchunks/pipeline-interests-fixed-window.cpp:62-101 | Starts the next fetcher, fails or does nothing as the state machine says; the assertion that no running fetcher is overwritten holds |
| FixedWindowPipeline.PipelineInterestsFixedWindow.DoCancel | tools/chunks/catchunks/pipeline-interests-fixed-window.cpp:103-112 | Cancels the fetcher of every slot and empties the slots |
| FixedWindowPipeline.PipelineInterestsFixedWindow.Cancel | tools/chunks/catchunks/pipeline-interests.cpp:63-71 | Stops once |
| FixedWindowPipeline.PipelineInterestsFixedWindow.HandleData | tools/chunks/catchunks/pipeline-interests-fixed-window.cpp:114-147 | Delivers, settles on the first FinalBlockId, and fetches on |
| FixedWindowPipeline.PipelineInterestsFixedWindow.Settle | tools/chunks/catchunks/pipeline-interests-fixed-window.cpp:130-143 | Stops what lies beyond the last segment, or fails on a content segment that has failed |
| FixedWindowPipeline.PipelineInterestsFixedWindow.HandleFail | tools/chunks/catchunks/pipeline-interests-fixed-window.cpp:149-180 | Fails at once, or stops what follows and waits for the rest |
| FixedWindowPipeline.PipelineInterestsFixedWindow.StopFollowing | tools/chunks/catchunks/pipeline-interests-fixed-window.cpp:159-171 | The loop cancels exactly what follows, and its flag says exactly whether any other fetcher runs |
| FixedWindowPipeline.PipelineInterestsFixedWindow.Handle | tools/chunks/catchunks/pipeline-interests-fixed-window.cpp:87-94 | An event at a fetcher object and the callback bound to its pipe make one step of the state machine |
| AdaptiveInvariant.StepKeeps | tools/chunks/catchunks/pipeline-interests-cubic.cpp:103-412 | Under any of the three policies every event keeps the books: requests in order, queue and states in step, deliveries distinct and counted, units in flight, retries, failures, loss marks |
| AdaptiveInvariant.StartKeeps | tools/chunks/catchunks/pipeline-interests-cubic.cpp:58-74 | doRun establishes them |
| AdaptiveTheorems.DeliveredAtMostOnce | tools/chunks/catchunks/pipeline-interests-cubic.cpp:244-306 | Each segment is delivered at most once, for CUBIC with Data duplicated freely, and m_nReceived - 1 counts them |
| AdaptiveTheorems.SuccessIsComplete | tools/chunks/catchunks/pipeline-interests-cubic.cpp:308-314 | The success stop happens only when exactly all segments but the excluded one have been delivered |
| AdaptiveTheorems.NoSegmentIsLost | tools/chunks/catchunks/pipeline-interests-cubic.cpp:198-218 | While running with the last segment known, each segment is excluded, delivered, tracked or not yet requested |
| AdaptiveTheorems.FailureIsSettledExactly | tools/chunks/catchunks/pipeline-interests-cubic.cpp:231-242 | m_failedSegNo is the least failed segment, so that learning FinalBlockId fails the run if and only if some failed segment is within it |
| AdaptiveTheorems.InFlightIsAccountedFor | tools/chunks/catchunks/pipeline-interests-cubic.cpp:380-383 | m_nInFlight is at most the number of segments in flight, and equal to it when the last segment was known at the start |
| AdaptiveTheorems.ClampsNeverFire | tools/chunks/catchunks/pipeline-interests-cubic.cpp:280-383 | With the last segment known at the start m_nInFlight is never held at zero: each answer for a segment in flight, and any set of expired timers, has its units to give back |
| AdaptiveTheorems.TrafficIsBounded | tools/chunks/catchunks/pipeline-interests-cubic.cpp:132-196 | First requests are strictly increasing, never of the excluded segment; each segment is resent at most max(1, maxRetries) times |
| AdaptiveTheorems.ScheduleLoopFits | tools/chunks/catchunks/pipeline-interests-cubic.cpp:201-217 | The loop, which ends although its continue does not count down, sends no more than it has room for |
| AdaptiveTheorems.ScheduleRespectsWindow | tools/chunks/catchunks/pipeline-interests-cubic.cpp:198-218 | After scheduling, units in flight have not grown or are within the window |
| AdaptiveTheorems.LossRaisesRecPoint | tools/chunks/catchunks/pipeline-interests-cubic.cpp:366-372 | Each loss event raises m_recPoint strictly, to the last segment requested |
| AdaptiveTheorems.LossesAreSpacedOut | tools/chunks/catchunks/pipeline-interests-cubic.cpp:361-372 | m_nLossEvents <= m_recPoint <= m_highInterest, m_highData <= m_highInterest, and between any two window decreases in a row a segment has been both first requested and received |
| AdaptiveExactness.TimersExactly | tools/chunks/catchunks/pipeline-interests-cubic.cpp:110-121 | Whatever timers have expired: each of their segments that is in flight, requested first or resent, ends up in the queue, once and at its end, and marked so; no other segment changes; and the number counted is theirs |
| AdaptiveExactness.TimeoutsExactly | tools/chunks/catchunks/pipeline-interests-cubic.cpp:103-130 | In every reached state: without an expired timer of a segment in flight nothing changes; otherwise exactly those segments are lost, one unit is given back for each, the window is decreased, once, if and only if Data of a segment beyond m_recPoint has arrived or conservative adaptation is disabled, m_recPoint becomes the last segment requested, and the window is used again |
| AdaptiveExactness.SignalsAgree | tools/chunks/catchunks/pipeline-interests-cubic.cpp:332-359 | In every reached state a congestion Nack and a lifetime expiry of a segment in flight do what the expiry of its timer does, and a duplicate Nack does nothing |
| AdaptiveExactness.NackFailsExactly | tools/chunks/catchunks/pipeline-interests-cubic.cpp:341-412 | In every reached state another Nack, for a segment in flight, fails the run if the last segment is known or nothing else is tracked; otherwise exactly the segments from it on are forgotten, with a unit for each |
| AdaptiveExactness.ResendsExactly | tools/chunks/catchunks/pipeline-interests-cubic.cpp:153-191 | In every reached state the head of the queue is resent if and only if it has been resent less than max(1, maxRetries) times, and given up, as by a Nack, otherwise |
| AdaptiveExactness.SchedulesInOrder | tools/chunks/catchunks/pipeline-interests-cubic.cpp:198-218 | While no queued segment is at its retry limit: the tracked segments of the queue are resent in its order, new ones only once it is empty, each for one unit, until the units or the segments to send are used up, and none is given up |
| AdaptiveExactness.FillsTheWindow | tools/chunks/catchunks/pipeline-interests-cubic.cpp:198-218 | Under the same condition as many units are in flight afterwards as the window holds whole segments, unless there were more or nothing is left to send |
| AdaptiveExactness.DataExactly | tools/chunks/catchunks/pipeline-interests-cubic.cpp:220-318 | In every reached state Data for a tracked segment not received before is delivered and counted, increases the window once, gives its unit back if the segment was in flight, and keeps it tracked if and only if it was in flight after a retransmission; then the run succeeds if all is received, else the window is used again |
| AdaptiveExactness.RepeatsExactly | tools/chunks/catchunks/pipeline-interests-cubic.cpp:249-267 | In every reached state Data delivered before, or for CUBIC no longer tracked, changes nothing but m_highData, and its segment is no longer tracked |
| AdaptiveExactness.LearnsExactly | tools/chunks/catchunks/pipeline-interests-cubic.cpp:231-242 | Learning the last segment fails if and only if the failure pending is within it, and otherwise clears the failure and forgets exactly the segments beyond, with a unit for each |
| AdaptiveExactness.LearnsFirst | tools/chunks/catchunks/pipeline-interests-cubic.cpp:231-244 | A first FinalBlockId is learnt before its segment is looked at, a later one is ignored |
| AdaptiveExactness.WindowFollowsPolicy | tools/chunks/catchunks/pipeline-interests-cubic.cpp:305-372 | Over every run, of any of the three pipelines, the window is what its policy makes of the initial one with one increase for each delivery and one decrease for each loss event, in their order |
| WindowPolicy.AfterIsCubicRun | tools/chunks/catchunks/pipeline-interests-cubic.cpp:454-483 | That is, for CUBIC, a run of its window, to which the theorems of CubicWindow apply |
| WindowPolicy.AfterIsAimdRun | tools/chunks/catchunks/pipeline-interests-aimd.cpp:386-403 | For AIMD likewise |
| WindowPolicy.StartsSlowly | tools/chunks/catchunks/pipeline-interests-cubic.cpp:28-56 | CUBIC and AIMD start with slow start from initCwnd: each acknowledgement adds aiStep until initSsthresh is reached |
| AdaptiveProgress.WindowNeverCloses | tools/chunks/catchunks/pipeline-interests-cubic.cpp:454-483 | With the last segment known at the start and options in the stated ranges, the defaults among them, the window of CUBIC, AIMD or BIC never drops below one segment, whatever the cubic target |
| AdaptiveProgress.NeverWedges | tools/chunks/catchunks/pipeline-interests-cubic.cpp:103-386 | With the last segment known and not the first, and a window of at least one segment, every state that has not stopped has a segment in flight |
| AdaptiveProgress.NeverWedgesByDefault | tools/chunks/catchunks/pipeline-interests-cubic.cpp:103-386 | With those options the window is no assumption any more |
| AdaptiveProgress.WedgedHasFailed | tools/chunks/catchunks/pipeline-interests-cubic.cpp:103-412 | Whether or not the last segment was known at the start, with a window of at least one segment: nothing is in flight in a running state only where the last segment is unknown and a failure pending, or it has been learnt from dropped Data with no segment of the content in flight; so while it is unknown only where a failure is pending |
| AdaptiveProgress.GivingUpWedgesExactly | tools/chunks/catchunks/pipeline-interests-cubic.cpp:388-412 | Giving up on a segment, in flight or at its retry limit, while the last one is unknown leaves nothing in flight if and only if another segment is tracked and none before it is in flight |
| AdaptiveProgress.SchedulingWedgesExactly | tools/chunks/catchunks/pipeline-interests-cubic.cpp:132-218 | With a failure pending and no queued segment at its retry limit, using the window leaves nothing in flight if and only if nothing was and the window is below one segment or nothing is queued |
| AdaptiveProgress.AcceptingWedgesExactly | tools/chunks/catchunks/pipeline-interests-cubic.cpp:220-318 | Likewise, accepting Data leaves nothing in flight if and only if nothing else was and the window is then below one segment or nothing else is queued |
| AdaptiveProgress.LearningWedgesExactly | tools/chunks/catchunks/pipeline-interests-cubic.cpp:231-258 | Learning the last segment from Data that is dropped, by any of the three pipelines, leaves nothing in flight if and only if no segment of the content was in flight and none had been given up |
| AdaptiveProgress.StartMovesExactly | tools/chunks/catchunks/pipeline-interests-cubic.cpp:58-74 | The start puts a segment in flight if and only if the last segment is not known to be the first |
| AdaptiveProgress.OneSegmentHangs | tools/chunks/catchunks/pipeline-interests-cubic.cpp:308-314 | With one segment the pipeline never stops, although all is received |
| CubicWindow.IncreaseReachesTwo | tools/chunks/catchunks/pipeline-interests-cubic.cpp:454-464 | One acknowledgement takes a window of at least one segment to at least two |
| CubicWindow.DecreaseLeavesOne | tools/chunks/catchunks/pipeline-interests-cubic.cpp:466-483 | One loss event leaves at least one segment of a window of two |
| CubicWindow.LossShares | tools/chunks/catchunks/pipeline-interests-cubic.cpp:466-483 | A loss takes exactly the share cubicBeta from the window; the threshold is the new window, or two if that is less; the window before the loss is remembered, or with fast convergence, if it is below the one remembered, the middle between it and what is left |
| CubicWindow.LossEntersAvoidance | tools/chunks/catchunks/pipeline-interests-cubic.cpp:454-483 | After any events, a loss that leaves two segments or more: the threshold is the window after it, and every acknowledgement up to the next loss makes a CUBIC update |
| CubicWindow.AckGains | tools/chunks/catchunks/pipeline-interests-cubic.cpp:434-464 | One acknowledgement: aiStep in slow start; otherwise the gain times the window is the distance to the higher of target and TCP estimate, as far as these apply, or 0.01 |
| CubicWindow.SlowStartAcks | tools/chunks/catchunks/pipeline-interests-cubic.cpp:454-457 | n acknowledgements below the threshold add n times aiStep |
| BicWindow.IncreaseReachesTwo | tools/chunks/catchunks/pipeline-interests-tcpbic.cpp:385-437 | One acknowledgement takes a positive window of at least one segment to at least two |
| BicWindow.DecreaseLeavesOne | tools/chunks/catchunks/pipeline-interests-tcpbic.cpp:439-466 | One loss event leaves at least one segment of a window of two, for a factor of at least 0.1 |
| AdaptiveLimits.UnknownEndCanWedge | tools/chunks/catchunks/pipeline-interests-cubic.cpp:388-412 | A run in which the last segment stays unknown after a failure, and the last Data in flight is accepted, ends with nothing in flight |
| AdaptiveLimits.GivingUpCanWedge | tools/chunks/catchunks/pipeline-interests-cubic.cpp:388-412 | A run in which one Nack, for the first of two segments in flight, ends with nothing in flight |
| AdaptiveLimits.ExpiryBalancesExactly | tools/chunks/catchunks/pipeline-interests-cubic.cpp:350-383 | An expiry leaves the units in flight balanced, before the window is used again, if and only if its segment was in flight or there was no unit |
| AdaptiveLimits.ExpiryWhileQueuedMiscounts | tools/chunks/catchunks/pipeline-interests-cubic.cpp:350-359 | A run with the default options after which an expiry for a queued segment leaves three segments in flight and two units counted |
| CubicPipeline.PipelineInterestsCubic.Run | tools/chunks/catchunks/pipeline-interests-cubic.cpp:58-74 | run and doRun start the state machine |
| CubicPipeline.PipelineInterestsCubic.SendInterest | tools/chunks/catchunks/pipeline-interests-cubic.cpp:132-196 | First requests and retransmissions as the state machine says |
| CubicPipeline.PipelineInterestsCubic.SchedulePackets | tools/chunks/catchunks/pipeline-interests-cubic.cpp:198-218 | The loop with its continue computes the state machine's schedule |
| CubicPipeline.PipelineInterestsCubic.CheckRto | tools/chunks/catchunks/pipeline-interests-cubic.cpp:103-130 | The traversal queues the expired segments, which `AdaptiveExactness.TimersExactly` tells, and reacts once |
| CubicPipeline.PipelineInterestsCubic.HandleData | tools/chunks/catchunks/pipeline-interests-cubic.cpp:220-318 | Data as the state machine says, with FinalBlockId, duplicates and completion |
| CubicPipeline.PipelineInterestsCubic.HandleNack | tools/chunks/catchunks/pipeline-interests-cubic.cpp:320-348 | Nacks by their reason |
| CubicPipeline.PipelineInterestsCubic.HandleLifetimeExpiration | tools/chunks/catchunks/pipeline-interests-cubic.cpp:350-359 | An expiry queues the segment and counts as one timeout |
| CubicPipeline.PipelineInterestsCubic.HandleTimeout | tools/chunks/catchunks/pipeline-interests-cubic.cpp:361-386 | Reacts to a loss event, gives back units in flight, and schedules |
| CubicPipeline.PipelineInterestsCubic.HandleFail | tools/chunks/catchunks/pipeline-interests-cubic.cpp:388-412 | Fails, or forgets the segment and what follows |
| CubicPipeline.PipelineInterestsCubic.CancelInFlightSegmentsGreaterThan | tools/chunks/catchunks/pipeline-interests-cubic.cpp:493-507 | Forgets exactly the segments beyond, and a unit for each |
| CubicPipeline.PipelineInterestsCubic.IncreaseWindow | tools/chunks/catchunks/pipeline-interests-cubic.cpp:434-464 | Slow start or the CUBIC update, given the cubic target and the TCP estimate |
| CubicPipeline.PipelineInterestsCubic.DecreaseWindow | tools/chunks/catchunks/pipeline-interests-cubic.cpp:466-483 | Multiplicative decrease with fast convergence, whose effect `CubicWindow.LossShares` tells |
| AimdEngine.DeliversOnceExactly | tools/chunks/catchunks/pipeline-interests-aimd.cpp:214-290 | AIMD and BIC: over every run in which Data may come for any requested segment of the content, with n Data for a segment delivered and no longer tracked: each segment is delivered once if and only if n is 0, and the whole content has been delivered if and only if there are n more deliveries than it has segments to deliver |
| AimdEngine.SucceedsWithAllExactly | tools/chunks/catchunks/pipeline-interests-aimd.cpp:280-285 | Over the same runs the success stop means that the whole content has been delivered if and only if n is no more than the deliveries in excess of it, with the last segment known at the start if and only if n is 0 |
| AimdEngine.ReceiveDelivers | tools/chunks/catchunks/pipeline-interests-aimd.cpp:243-277 | Data is delivered and counted unless its segment is tracked as received, and so repeats a delivery exactly when its segment has been delivered and is no longer tracked |
| AimdEngine.DuplicateEndsTransferEarly | tools/chunks/catchunks/pipeline-interests-aimd.cpp:280-285 | A run of AIMD with a duplicate that stops in success with one of three segments missing |
| AimdWindow.RoundAddsAtMostOneStep | tools/chunks/catchunks/pipeline-interests-aimd.cpp:386-395 | In congestion avoidance floor(w) acks raise the window by at most aiStep |
| AimdWindow.RoundFromInteger | tools/chunks/catchunks/pipeline-interests-aimd.cpp:386-395 | Exactly n acks take a window of n to n + aiStep, for a step of at most one |
| AimdWindow.LossEntersAvoidance | tools/chunks/catchunks/pipeline-interests-aimd.cpp:386-403 | Without the reset option, after any events, a loss and any more events the window is at least its threshold, at least two, so that slow start is over for good; the loss itself takes the window to the threshold, no lower than the share that mdCoef leaves and no higher than a window of two or more was |
| AimdWindow.AckGains | tools/chunks/catchunks/pipeline-interests-aimd.cpp:386-395 | One acknowledgement adds aiStep in slow start, and in avoidance what makes up aiStep when taken floor(window) times |
| AimdWindow.SlowStartAcks | tools/chunks/catchunks/pipeline-interests-aimd.cpp:386-390 | n acknowledgements below the threshold add n times aiStep |
| AimdWindow.LossShares | tools/chunks/catchunks/pipeline-interests-aimd.cpp:397-403 | After any events and a loss, the threshold is the share mdCoef of the window before, at least two; the window is the threshold, or with the reset option the initial one |
| AimdWindow.AimdCwnd.IncreaseWindow | tools/chunks/catchunks/pipeline-interests-aimd.cpp:386-395 | The update in place is the policy's |
| AimdWindow.AimdCwnd.DecreaseWindow | tools/chunks/catchunks/pipeline-interests-aimd.cpp:397-403 | The update in place is the policy's |
| BicWindow.LossStartsSearch | tools/chunks/catchunks/pipeline-interests-tcpbic.cpp:439-450 | Without reset a loss starts a binary search if and only if the pipeline is not max probing and the window stays at 14 or more |
| BicWindow.AckSearches | tools/chunks/catchunks/pipeline-interests-tcpbic.cpp:396-420 | Each ack strictly raises the window, not past the target; the search goes on with min <= cwnd <= target <= max, or max probing starts |
| BicWindow.SearchEnds | tools/chunks/catchunks/pipeline-interests-tcpbic.cpp:396-420 | Max probing starts within a number of acks that the interval determines |
| BicWindow.AckGains | tools/chunks/catchunks/pipeline-interests-tcpbic.cpp:385-437 | One acknowledgement: one segment below 14 up to the threshold; else the gain times the window is 1 below 14, the distance to the target but at most 16 in the search, and the probing step in max probing |
| BicWindow.AckNarrows | tools/chunks/catchunks/pipeline-interests-tcpbic.cpp:396-420 | An acknowledgement of the search either moves its lower bound to the window and its target to the middle, or starts max probing with a step of one |
| BicWindow.ProbingDoubles | tools/chunks/catchunks/pipeline-interests-tcpbic.cpp:421-436 | The probing step doubles with each target reached, and max probing ends when it is 16 or more |
| BicWindow.ProbingTarget | tools/chunks/catchunks/pipeline-interests-tcpbic.cpp:421-436 | The next target is a step beyond the window |
| BicWindow.LossShares | tools/chunks/catchunks/pipeline-interests-tcpbic.cpp:439-456 | A loss leaves the share beta of a window of 14 or more, and half of a smaller one, with the bounds of the next search |
| BicWindow.LossResets | tools/chunks/catchunks/pipeline-interests-tcpbic.cpp:457-466 | With the reset option the window is the initial one and the threshold half of what the loss left |
| BicWindow.BicCwnd.IncreaseWindow | tools/chunks/catchunks/pipeline-interests-tcpbic.cpp:385-437 | The assignments in order compute the policy's increase |
| BicWindow.BicCwnd.DecreaseWindow | tools/chunks/catchunks/pipeline-interests-tcpbic.cpp:439-466 | The assignments in order compute the policy's decrease |
| RttEstimation.EstimatesStayInRange | tools/chunks/catchunks/aimd-rtt-estimator.cpp:42-70 | For samples in [lo, hi], any sample counts and any backoffs between: lo <= sRtt <= hi, 0 <= rttVar <= max(first / 2, hi - lo), minRto <= RTO <= maxRto |
| RttEstimation.BackoffsAreOneClamp | tools/chunks/catchunks/aimd-rtt-estimator.cpp:65-70 | k backoffs of an RTO in range are one clamp of RTO * m^k |
| RttEstimation.FirstSample | tools/chunks/catchunks/aimd-rtt-estimator.cpp:42-63 | The first sample is the smoothed RTT and half of it the deviation |
| RttEstimation.LaterSample | tools/chunks/catchunks/aimd-rtt-estimator.cpp:42-63 | The distance from the sample to the smoothed RTT shrinks by exactly the factor 1 - alpha / n, that from the absolute error, against the old smoothed RTT, to the deviation by 1 - beta / n; the RTO is sRtt + k * rttVar kept within its bounds |
| RttEstimation.EqualSamplesConverge | tools/chunks/catchunks/aimd-rtt-estimator.cpp:42-63 | n equal samples leave (1 - alpha)^n of the first error |
| RttEstimation.TwoSamples | tools/chunks/catchunks/aimd-rtt-estimator.cpp:42-63 | With the default weights samples of 100 and 200 ms give 112.5 ms and an RTO of 362.5 ms |
| RttEstimation.RttEstimator.AddMeasurement | tools/chunks/catchunks/aimd-rtt-estimator.cpp:42-63 | The update in place is the estimate's, whose effect `FirstSample` and `LaterSample` tell |
| RttEstimation.RttEstimator.BackoffRto | tools/chunks/catchunks/aimd-rtt-estimator.cpp:65-70 | The update in place is the estimate's |
| PibTable.InsertMeans | tools/pib/pib-db.cpp:64-86 | The unique index and the insert triggers: a new name gets one row, which is the default if and only if its group had none; an old name changes nothing; names stay unique and defaults at most one a group |
| PibTable.SetDefaultMeans | tools/pib/pib-db.cpp:87-94 | The update trigger: the named row becomes the only default of its group, other groups are untouched |
| PibTable.Cascade | tools/pib/pib-db.cpp:111-114 | The foreign key's cascade, by name: rows stay if and only if their parents do |
| PibDbTheorems.DatabaseRefinesStore | tools/pib/pib-db.cpp:43-221 | Over every sequence of operations from an empty PIB: unique names, at most one default a group, keys rooted in the identity their name extends, certificates in their key, the owner field equal to the table's; and the content by name is that of the simple store |
| PibDbTheorems.ApplyRefines | tools/pib/pib-db.cpp:386-780 | Each operation does to the names what the simple store does, and keeps the invariant |
| PibDbTheorems.AddCertificateRefines | tools/pib/pib-db.cpp:698-720 | A certificate brings its key and identity, unless the key name is empty |
| PibDbTheorems.DeleteIdentityRefines | tools/pib/pib-db.cpp:496-506 | Deleting an identity removes exactly the keys that extend its name and their certificates |
| PibDbTheorems.DeleteKeyRefines | tools/pib/pib-db.cpp:614-624 | Deleting a key removes exactly its certificates with it |
| PibDbTheorems.AddIdentityReturns | tools/pib/pib-db.hpp:120-126 | addIdentity returns the new row id, or 0 for a failed insert, if and only if the identity is new or the last row id is 0; it returns the identity's own row id if and only if the identity is new or the last row id is the same number |
| PibDbTheorems.FailedAddNeverReturnsZero | tools/pib/pib-db.hpp:120-126 | After any operations since the PIB was empty, it returns what is promised if and only if the identity is new |
| PibDbTheorems.FailedAddReturnsAnotherRow | tools/pib/pib-db.cpp:482-494 | An input on which a failed insert returns another identity's row id |
| PibDbTheorems.AddKeyReturns | tools/pib/pib-db.cpp:571-594 | addKey returns the row id of the key if it is new, else that of the row inserted last |
| PibDbTheorems.AddCertificateReturns | tools/pib/pib-db.cpp:698-720 | addCertificate returns the row id of a new certificate |
| PibDbTheorems.AcceptedExactly | tools/pib/pib-db.cpp:386-401 | A management certificate is accepted if and only if its key name is /localhost/pib/(user)/mgmt/(key-id), of the user of the one there is |
| PibDbTheorems.AcceptedIsStored | tools/pib/pib-db.cpp:386-422 | An accepted one is stored, whether by INSERT or UPDATE, with its owner; a refused one changes nothing |
| PibDbTheorems.MgmtIsLastAccepted | tools/pib/pib-db.cpp:386-422 | Over every sequence of operations from an empty PIB the management certificate is that of the last accepted update |
| PibDbTheorems.DefaultsExactly | tools/pib/pib-db.cpp:525-780 | Setting a default makes the identity, key or certificate of that name the only default of its group, and changes nothing else |
| PibDatabase.SentInTurn | tools/pib/pib-db.cpp:152-158 | Two deletions in a row send together one signal for each row gone |
| PibDatabase.SentIsAnnounced | tools/pib/pib-db.cpp:95-221 | The signals name exactly what the store has lost |
| PibDatabase.SetDefaultIsReadBack | tools/pib/pib-db.cpp:525-551 | The default that was set is the one read back, for its group only |
| PibDatabase.InsertedDefaultIsReadBack | tools/pib/pib-db.cpp:74-86 | A new row is read back as default exactly when its group had none |
| PibDatabase.PibDb.DeleteIdentityRow | tools/pib/pib-db.cpp:95-114 | Removes the row and its cascade, and signals each removed row once, its own last |
| PibDatabase.PibDb.DeleteKeyRow | tools/pib/pib-db.cpp:152-170 | Removes the row and its certificates, and signals each removed row once, its own last |
| PibDatabase.PibDb.DeleteIdentity | tools/pib/pib-db.cpp:496-506 | The cascade, with exactly the signals of what is gone |
| PibDatabase.PibDb.DeleteKey | tools/pib/pib-db.cpp:614-624 | The cascade, with exactly the signals of what is gone |
| PibDatabase.PibDb.DeleteCertificate | tools/pib/pib-db.cpp:741-751 | The row goes, with its signal if there was one |
| PibDatabase.PibDb.AddIdentity | tools/pib/pib-db.cpp:482-494 | Inserts and returns sqlite3_last_insert_rowid |
| PibDatabase.PibDb.AddKey | tools/pib/pib-db.cpp:571-594 | Adds the identity if missing, then the key; 0 for the empty name |
| PibDatabase.PibDb.AddCertificate | tools/pib/pib-db.cpp:698-720 | Adds the key if missing, then the certificate, and signals exactly an insertion |
| PibDatabase.PibDb.UpdateMgmtCertificate | tools/pib/pib-db.cpp:386-422 | Refuses a wrong name or another owner; else stores the certificate, with a new last row id if the row is inserted (`PibDbTheorems.AcceptedIsStored`), and signals |
| PibDatabase.PibDb.ListKeyNamesOfIdentity | tools/pib/pib-db.cpp:675-695 | The join lists exactly the keys that extend the identity, each once |
| PibDatabase.PibDb.ListCertNamesOfKey | tools/pib/pib-db.cpp:801-822 | The join lists exactly the certificates of the key, each once |
| PibDatabase.PibDb.GetKey | tools/pib/pib-db.cpp:596-612 | The key of that name, if any |
| PibDatabase.PibDb.GetCertificate | tools/pib/pib-db.cpp:722-739 | The certificate of that name, if any |
| PibDatabase.PibDb.GetDefaultKeyNameOfIdentity | tools/pib/pib-db.cpp:656-673 | The one default key of the identity, which extends its name |
| PibDatabase.PibDb.GetDefaultCertNameOfKey | tools/pib/pib-db.cpp:782-799 | The one default certificate of the key |
| KeyCaching.CacheIsByLastUse | tools/pib/key-cache.cpp:39-103 | After any operations the entries are in the order of their last use, each name once, no more than max(1, capacity) |
| KeyCaching.EvictsLeastRecentlyUsed | tools/pib/key-cache.cpp:88-95 | An insertion into a full cache evicts the entry whose last use is the oldest |
| KeyCaching.EntriesExactly | tools/pib/key-cache.cpp:39-103 | A cached name changes no entry, a new one is added, in the place of another if and only if the cache is full, an erased one goes alone, and a lookup finds exactly what is held |
| KeyCaching.KeyCache.Insert | tools/pib/key-cache.cpp:39-55 | Requeues a cached name with its old key; else evicts if full and appends |
| KeyCaching.KeyCache.Find | tools/pib/key-cache.cpp:57-70 | Finds the key and makes it the most recently used |
| KeyCaching.KeyCache.Erase | tools/pib/key-cache.cpp:72-80 | Removes the entry, if any |
| KeyCaching.KeyCache.AdjustLru | tools/pib/key-cache.cpp:97-103 | Moves an entry to the end |
| PibValidation.CachedValidationIsDirect | tools/pib/pib-validator.cpp:62-148 | After any interleaving of database operations with validations, the decision, made with cached keys, is the one the database alone determines |
| PibValidation.VerifiedExactly | tools/pib/pib-validator.cpp:69-124 | A key is chosen if and only if there is a management certificate, the Interest has nine components, its user is the one in that certificate's key name, and its locator names that certificate without version or a stored key |
| PibValidation.RefusedExactly | tools/pib/pib-validator.cpp:69-124 | For each reason to refuse an Interest, exactly when it is the one |
| PibValidation.LastAcceptedIsTrusted | tools/pib/pib-validator.cpp:98-102 | Since the PIB was empty, a locator that names the last accepted management certificate is checked with its key; before one is accepted everything is refused |
| PibValidation.SignalsExist | tools/pib/pib-db.cpp:95-221 | Every operation has signals of the kind the theorems assume |
| PibValidation.OperationKeeps | tools/pib/pib-validator.cpp:44-55 | An operation and the handlers of its signals keep every cached key equal to the stored one and the management data current |
| PibValidation.SignalsErase | tools/pib/pib-validator.cpp:52-55 | The keyDeleted handler leaves exactly entries of keys not deleted |
| PibValidation.UsedKeyIsCached | tools/pib/pib-validator.cpp:107-123 | A stored key that an Interest has used is the most recently used entry of the cache |
| PibValidation.PibValidator.constructor | tools/pib/pib-validator.cpp:34-56 | Loads owner and certificate; the cache is empty and has the default capacity |
| PibValidation.PibValidator.OnMgmtCertificateChanged | tools/pib/pib-validator.cpp:44-50 | Reloads owner and certificate |
| PibValidation.PibValidator.OnKeyDeleted | tools/pib/pib-validator.cpp:52-55 | Erases the key from the cache |
| PibValidation.PibValidator.CheckPolicy | tools/pib/pib-validator.cpp:62-134 | Validates an Interest if and only if the database alone determines a key for it and its signature verifies with that key; stays in agreement |
| PibValidation.PibValidator.ChooseKey | tools/pib/pib-validator.cpp:69-124 | Chooses the key, or refuses, as the database alone would, whether or not the key is cached |
| CertPublishing.PublisherFollowsStore | tools/pib/cert-publisher.cpp:101-125 | From any database with names that have ID-CERT once, before the version, and a publisher in agreement with it: after any additions, deletions and cascades the published certificates are exactly the stored ones, the prefixes exactly their names without version, and no assertion fails |
| CertPublishing.StopKeeps | tools/pib/cert-publisher.cpp:108-125 | Withdrawing a certificate erases it alone, and its prefix exactly when no other certificate has it |
| CertPublishing.NotApartMisleads | tools/pib/cert-publisher.cpp:108-125 | Any two names one of which lies under the other's prefix make the publisher disagree |
| CertPublishing.WellNamedAreApart | tools/pib/cert-publisher.cpp:117-120 | Names of the certificate form never do |
| CertPublishing.CertPublisher.constructor | tools/pib/cert-publisher.cpp:27-37 | Starts in agreement with the database |
| CertPublishing.CertPublisher.StartPublishAll | tools/pib/cert-publisher.cpp:45-65 | The nested loops over identities, keys and certificates publish exactly what is stored |
| CertPublishing.CertPublisher.StartPublish | tools/pib/cert-publisher.cpp:101-106 | Stores the certificate and registers its prefix |
| CertPublishing.CertPublisher.StopPublish | tools/pib/cert-publisher.cpp:108-125 | Erases what is under the name, and the prefix if nothing is left under it |
| CertPublishing.CertPublisher.RegisterCertPrefix | tools/pib/cert-publisher.cpp:67-76 | The prefix is registered, once |
| CertPublishing.CertPublisher.OnRegisterFailed | tools/pib/cert-publisher.cpp:79-86 | A failed registration is retried unless it is no longer needed, and changes neither storage nor prefixes |
| Tlv.VarNumberRoundTrip | tools/pib/encoding/pib-encoding.cpp:53-54 | Reading a variable-size number from what begins with its encoding gives the number and the rest |
| Tlv.ParseRoundTrip | tools/pib/encoding/pib-encoding.cpp:178-179 | Parsing a value gives back the elements it was made of |
| Tlv.NameRoundTrip | tools/pib/encoding/pib-encoding.cpp:50-57 | Decoding an encoded name gives the name |
| Tlv.LeadingOctet | tools/pib/encoding/pib-encoding.cpp:53-54 | The leading octet of a number weighs a power of 256 for each octet after it |
| Tlv.VarNumberForm | tools/pib/encoding/pib-encoding.cpp:53-54 | One octet up to 252, else 253, 254 or 255 and 2, 4 or 8 octets |
| Tlv.VarNumberIsShortest | tools/pib/encoding/pib-encoding.cpp:53-54 | No shorter octets read as the same variable-size number |
| Tlv.NonNegativeIntegerIsShortest | tools/pib/encoding/pib-encoding.cpp:375 | No shorter octets read as the same integer |
| PibEncoding.IdentityRoundTrip | tools/pib/encoding/pib-encoding.cpp:48-93 | Decoding undoes encoding |
| PibEncoding.PublicKeyRoundTrip | tools/pib/encoding/pib-encoding.cpp:132-198 | Decoding undoes encoding |
| PibEncoding.CertificateRoundTrip | tools/pib/encoding/pib-encoding.cpp:226-273 | Decoding undoes encoding |
| PibEncoding.NameListRoundTrip | tools/pib/encoding/pib-encoding.cpp:290-349 | The order survives, and decoding gives just the encoded list if and only if the object held none |
| PibEncoding.ErrorRoundTrip | tools/pib/encoding/pib-encoding.cpp:367-431 | Decoding undoes encoding |
| PibEncoding.UserRoundTrip | tools/pib/encoding/pib-encoding.cpp:456-522 | Decoding gives the encoded user if and only if it has a locator or the object held none |
| PibFormats.NameAcceptedExactly | tools/pib/encoding/pib-encoding.cpp:81-93 | A block is a name if and only if its type is 7 and it consists of components |
| PibFormats.IdentityAcceptedExactly | tools/pib/encoding/pib-encoding.cpp:81-93 | A block is an identity if and only if its type is 145 and it holds a name alone |
| PibFormats.PublicKeyAcceptedExactly | tools/pib/encoding/pib-encoding.cpp:167-198 | A block is a public key if and only if its type is 146 and it holds a name and octets of type 148 and nothing more |
| PibFormats.CertificateAcceptedExactly | tools/pib/encoding/pib-encoding.cpp:259-273 | A block is a certificate if and only if its type is 147 and it holds a Data packet alone |
| PibFormats.NameListAcceptedExactly | tools/pib/encoding/pib-encoding.cpp:329-349 | A block of type 150 is accepted if and only if all its elements that are names decode; these are added, in their order |
| PibFormats.ErrorAcceptedExactly | tools/pib/encoding/pib-encoding.cpp:404-431 | A block is an error if and only if its type is 152 and it begins with an integer of type 252 and octets of type 148 |
| PibFormats.UserAcceptedExactly | tools/pib/encoding/pib-encoding.cpp:498-522 | A block is a user if and only if its type is 144 and it begins with a Data packet; its locator is an element of type 153 next to that, else the one held |
| PibParams.TypedRoundTrip | tools/pib/encoding/get-param.cpp:59-153 | Get and List: whatever is accepted for encoding decodes to the same observable type and name |
| PibParams.DefaultRoundTrip | tools/pib/encoding/default-param.cpp:63-165 | Default: whatever is accepted for encoding decodes to the same target type, origin type and observable name |
| PibParams.DeleteRoundTrip | tools/pib/encoding/delete-param.cpp:50-126 | Delete: whatever is accepted for encoding decodes to the same type and name |
| PibParams.UpdateRoundTrip | tools/pib/encoding/update-param.cpp:108-232 | Update: the entity of each of four kinds and the option come back, but for a locator the object already held |
| PibParams.ExtraElements | tools/pib/encoding/update-param.cpp:229-231 | Elements that follow are ignored by Get, List and Default, and refused by Delete and Update |
| PibFormats.TypedAcceptedExactly | tools/pib/encoding/get-param.cpp:110-153 | Get and List: accepted if and only if a type of 0 to 3 comes first and, unless it is 0, a name second |
| PibFormats.DefaultAcceptedExactly | tools/pib/encoding/default-param.cpp:114-165 | Default: accepted if and only if a target type and an origin type of 0 to 3 come first and, unless that is 0, a name third |
| PibFormats.DeleteAcceptedExactly | tools/pib/encoding/delete-param.cpp:93-126 | Delete: accepted if and only if there are exactly a type and a name |
| PibFormats.UpdateAcceptedExactly | tools/pib/encoding/update-param.cpp:171-232 | Update: accepted if and only if there are exactly an entity and an option of type 149 |
| PibFormats.EntityAcceptedExactly | tools/pib/encoding/update-param.cpp:186-218 | The kind of an entity is that of its block |
| PibFormats.EncodedExactly | tools/pib/encoding/delete-param.cpp:50-69 | Types above 3 are refused by the encoders, and no others |
| PibObjects.PibIdentity.WireEncode | tools/pib/encoding/pib-encoding.cpp:48-57 | The estimator's and the buffer's pass return the size of the encoding, and the buffer's prepends exactly it |
| PibObjects.PibIdentity.WireDecode | tools/pib/encoding/pib-encoding.cpp:81-93 | Accepts and assigns exactly what the format allows |
| PibObjects.PibPublicKey.WireEncode | tools/pib/encoding/pib-encoding.cpp:132-143 | The estimator's and the buffer's pass return the size of the encoding, and the buffer's prepends exactly it |
| PibObjects.PibPublicKey.WireDecode | tools/pib/encoding/pib-encoding.cpp:167-198 | Accepts and assigns exactly what the format allows: a name and the key bits, and nothing more |
| PibObjects.PibCertificate.WireEncode | tools/pib/encoding/pib-encoding.cpp:226-235 | The estimator's and the buffer's pass return the size of the encoding, and the buffer's prepends exactly it |
| PibObjects.PibCertificate.WireDecode | tools/pib/encoding/pib-encoding.cpp:259-273 | Accepts and assigns exactly what the format allows |
| PibObjects.PibNameList.WireEncode | tools/pib/encoding/pib-encoding.cpp:290-304 | The estimator's and the buffer's pass return the size of the encoding, and the buffer's prepends exactly it; the reversed loop leaves the names in order |
| PibObjects.PibNameList.Encoded | tools/pib/encoding/pib-encoding.cpp:313-327 | The estimator's pass gives exactly the size that the buffer's pass fills |
| PibObjects.PibNameList.WireDecode | tools/pib/encoding/pib-encoding.cpp:329-349 | Accepts and assigns exactly what the format allows, adding the names to those held |
| PibObjects.PibError.WireEncode | tools/pib/encoding/pib-encoding.cpp:367-379 | The estimator's and the buffer's pass return the size of the encoding, and the buffer's prepends exactly it |
| PibObjects.PibError.WireDecode | tools/pib/encoding/pib-encoding.cpp:404-431 | Accepts and assigns exactly what the format allows: a code and a message, whatever follows |
| PibObjects.PibUser.WireEncode | tools/pib/encoding/pib-encoding.cpp:456-473 | The estimator's and the buffer's pass return the size of the encoding, and the buffer's prepends exactly it, with the locator only if it is not empty |
| PibObjects.PibUser.WireDecode | tools/pib/encoding/pib-encoding.cpp:498-522 | Accepts and assigns exactly what the format allows, keeping the locator when there is none |
| PibObjects.TypedParam.WireEncode | tools/pib/encoding/list-param.cpp:59-85 | The estimator's and the buffer's pass return the size of the encoding, and the buffer's prepends exactly it (Get and List); types that are not supported are refused |
| PibObjects.TypedParam.WireDecode | tools/pib/encoding/list-param.cpp:109-152 | Accepts and assigns exactly what the format allows (Get and List), keeping the name when the type has none |
| PibObjects.DefaultParam.WireEncode | tools/pib/encoding/default-param.cpp:63-90 | The estimator's and the buffer's pass return the size of the encoding, and the buffer's prepends exactly it; origin types that are not supported are refused |
| PibObjects.DefaultParam.WireDecode | tools/pib/encoding/default-param.cpp:114-165 | Accepts and assigns exactly what the format allows, keeping the name when the origin type has none |
| PibObjects.DeleteParam.WireEncode | tools/pib/encoding/delete-param.cpp:50-69 | The estimator's and the buffer's pass return the size of the encoding, and the buffer's prepends exactly it; types that are not supported are refused |
| PibObjects.DeleteParam.WireDecode | tools/pib/encoding/delete-param.cpp:93-126 | Accepts and assigns exactly what the format allows: any type and a name, and nothing more |
| PibObjects.UpdateParam.WireEncode | tools/pib/encoding/update-param.cpp:108-147 | The estimator's and the buffer's pass return the size of the encoding, and the buffer's prepends exactly it, for the entity of the type that is set |
| PibObjects.UpdateParam.Encoded | tools/pib/encoding/update-param.cpp:155-169 | The estimator's pass gives exactly the size that the buffer's pass fills |
| PibObjects.UpdateParam.WireDecode | tools/pib/encoding/update-param.cpp:171-232 | Accepts and assigns exactly what the format allows: an entity of one of four kinds and its option, and nothing more |

## Left out

- AdaptiveTheorems.DeliveredAtMostOnce: the theorems about the adaptive engine assume `AdaptiveInvariant.Allowed`, because the handlers of Nacks and expiries queue a segment whatever its state (`AdaptiveLimits.ExpiryWhileQueuedMiscounts`) and because AIMD and BIC deliver untracked Data again (`AimdEngine.DeliversOnceExactly`).
- AdaptiveProgress.NeverWedges: needs the last segment at the start and a second segment, because of `AdaptiveLimits.UnknownEndCanWedge`, `AdaptiveLimits.GivingUpCanWedge` and `AdaptiveProgress.OneSegmentHangs`; `AdaptiveProgress.WedgedHasFailed` covers the other starts.
- AdaptiveProgress.AcceptingWedgesExactly: no segment in the retransmission queue is at its retry limit; one that is, is given up on when its turn comes, as `AdaptiveProgress.GivingUpWedgesExactly` says.
- AdaptiveSpec: the AIMD and BIC pipelines are modelled on values only; their handlers are CUBIC's line by line but for the guard and the window, and are not written out as objects again.
- CubicPipeline.PipelineInterestsCubic.IncreaseWindow: the cubic target and the TCP-friendly estimate (pipeline-interests-cubic.cpp:414-433), which depend on clocks and a cube root, are inputs.
- PibObjects.TypedParam.WireEncode: GetParam and ListParam have the same code but for their type number, and are one class.
- Clocks and RTT values are not part of the engine: the segments whose timers have expired are an input.
- Rounding of `double`, the 64-bit wrap-around of segment numbers and the conversion of the window to `int` are not modelled.
- Consumer: failing validation, and the exception after an application Nack; validation is immediate.
- Producer: answering discovery Interests, signing, freshness; version discovery as a whole.
- Face, Scheduler, rate estimator, statistics and verbose output.
- SQLite: files, locking, errors other than the constraints; `setTpmLocator` and `getTpmLocator`; the order in which rows come is arbitrary.
- The contents of keys and certificates, how a signature is checked (an input of `CheckPolicy`), and the derivation of a key name from a certificate name, which belong to ndn-cxx; so does the in-memory storage, taken to erase and find by prefix.
- `PibObjects`: the cached wire that `wireEncode` returns again; fields assigned before a decoder fails are not specified; the entity type that `UpdateParam` leaves unset in its default constructor is Identity here.
- Name components other than generic ones.
- The permission rules of update and delete commands, the response cache, the other tools (ping, peek, poke, dump, dissect).
