/** One DataFetcher as a state machine: it retries its Interest after Nacks and timeouts and
    reports back at most once. */
module DataFetcherSpec {
  import opened Network

  const MAX_RETRIES_INFINITE := -1
  const MAX_CONGESTION_BACKOFF_TIME := 10000

  /** Retry limits of a fetcher; MAX_RETRIES_INFINITE lifts one. */
  datatype Limits = Limits(maxNackRetries: int, maxTimeoutRetries: int)
  {
    predicate Finite() {
      maxNackRetries != MAX_RETRIES_INFINITE && maxTimeoutRetries != MAX_RETRIES_INFINITE
    }
  }

  datatype Fetcher = Fetcher(
    nNacks: nat,
    nTimeouts: nat,
    nCongestionRetries: nat,
    isStopped: bool,
    hasError: bool,
    scheduled: nat,     // expressInterest calls waiting in the scheduler
    nSent: nat,         // Interests sent so far
    nCallbacks: nat)    // callbacks run so far
  {
    predicate IsRunning() { !isStopped && !hasError }
  }

  /** What a fetcher reports to its owner. */
  datatype Report = Nothing | GotData | GaveUp

  datatype Reaction = Reaction(fetcher: Fetcher, report: Report)

  function ExpressInterest(f: Fetcher): Fetcher {
    f.(nCongestionRetries := 0, nSent := f.nSent + 1)
  }

  /** `fetch` constructs a fetcher and sends its first Interest. */
  function Fetch(): Fetcher { ExpressInterest(Fetcher(0, 0, 0, false, false, 0, 0, 0)) }

  function Cancel(f: Fetcher): Fetcher {
    if f.IsRunning() then f.(isStopped := true, scheduled := 0) else f
  }

  function HandleData(f: Fetcher): Reaction {
    if !f.IsRunning() then Reaction(f, Nothing)
    else Reaction(f.(isStopped := true, nCallbacks := f.nCallbacks + 1), GotData)
  }

  function Fail(f: Fetcher): Reaction {
    Reaction(f.(hasError := true, nCallbacks := f.nCallbacks + 1), GaveUp)
  }

  function Pow2(n: nat): nat { if n == 0 then 1 else 2 * Pow2(n - 1) }

  /** Milliseconds until the next attempt after a congestion Nack. */
  function BackoffTime(f: Fetcher): nat {
    var t := Pow2(f.nCongestionRetries);
    if t > MAX_CONGESTION_BACKOFF_TIME then MAX_CONGESTION_BACKOFF_TIME else t
  }

  function Backoff(f: Fetcher): Fetcher {
    f.(scheduled := f.scheduled + 1,
       nCongestionRetries := if Pow2(f.nCongestionRetries) > MAX_CONGESTION_BACKOFF_TIME
                             then f.nCongestionRetries else f.nCongestionRetries + 1)
  }

  function HandleNack(l: Limits, f: Fetcher, reason: NackReason): Reaction {
    if !f.IsRunning() then Reaction(f, Nothing)
    else
      var f1 := if l.maxNackRetries != MAX_RETRIES_INFINITE then f.(nNacks := f.nNacks + 1) else f;
      if f1.nNacks <= l.maxNackRetries || l.maxNackRetries == MAX_RETRIES_INFINITE then
        match reason
        case Duplicate => Reaction(ExpressInterest(f1), Nothing)
        case Congestion => Reaction(Backoff(f1), Nothing)
        case OtherReason => Fail(f1)
      else Fail(f1)
  }

  function HandleTimeout(l: Limits, f: Fetcher): Reaction {
    if !f.IsRunning() then Reaction(f, Nothing)
    else
      var f1 := if l.maxTimeoutRetries != MAX_RETRIES_INFINITE then f.(nTimeouts := f.nTimeouts + 1) else f;
      if f1.nTimeouts <= l.maxTimeoutRetries || l.maxTimeoutRetries == MAX_RETRIES_INFINITE
      then Reaction(ExpressInterest(f1), Nothing)
      else Fail(f1)
  }

  /** A scheduled expressInterest runs. */
  function Wake(f: Fetcher): Fetcher {
    if f.scheduled == 0 then f else ExpressInterest(f.(scheduled := f.scheduled - 1))
  }

  // ------------------------------------------------------------------ one fetcher's whole life

  datatype Event = Data | Nack(reason: NackReason) | Timeout | Scheduled | Cancelled

  function React(l: Limits, f: Fetcher, e: Event): Reaction {
    match e
    case Data => HandleData(f)
    case Nack(reason) => HandleNack(l, f, reason)
    case Timeout => HandleTimeout(l, f)
    case Scheduled => Reaction(Wake(f), Nothing)
    case Cancelled => Reaction(Cancel(f), Nothing)
  }

  function Step(l: Limits, f: Fetcher, e: Event): Fetcher { React(l, f, e).fetcher }

  function Run(l: Limits, f: Fetcher, events: seq<Event>): Fetcher
    decreases |events|
  {
    if events == [] then f else Run(l, Step(l, f, events[0]), events[1..])
  }

  function AtMost(n: nat, limit: int): nat
    requires limit >= 0
  {
    if n <= limit then n else limit
  }

  /** Each Interest but the first answers a Nack or a timeout within its limit; a callback is
      the last thing a fetcher does. */
  ghost predicate Bounded(l: Limits, f: Fetcher)
    requires l.maxNackRetries >= 0 && l.maxTimeoutRetries >= 0
  {
    && f.nSent + f.scheduled <= 1 + AtMost(f.nNacks, l.maxNackRetries) + AtMost(f.nTimeouts, l.maxTimeoutRetries)
    && f.nCallbacks <= 1 && (f.IsRunning() ==> f.nCallbacks == 0)
  }

  lemma {:induction false} RunBounded(l: Limits, f: Fetcher, events: seq<Event>)
    requires l.maxNackRetries >= 0 && l.maxTimeoutRetries >= 0 && Bounded(l, f)
    ensures Bounded(l, Run(l, f, events))
    decreases |events|
  {
    if events != [] {
      RunBounded(l, Step(l, f, events[0]), events[1..]);
    }
  }

  /** Whatever happens to it, in whatever order, a fetcher with finite limits sends at most
      1 + maxNackRetries + maxTimeoutRetries Interests and runs at most one callback. */
  lemma FetcherIsBounded(l: Limits, events: seq<Event>)
    requires l.maxNackRetries >= 0 && l.maxTimeoutRetries >= 0
    ensures var f := Run(l, Fetch(), events);
            f.nSent <= 1 + l.maxNackRetries + l.maxTimeoutRetries && f.nCallbacks <= 1
  {
    RunBounded(l, Fetch(), events);
  }

  lemma {:induction false} RunResetsBackoff(l: Limits, f: Fetcher, events: seq<Event>)
    requires f.IsRunning() && f.scheduled == 0 ==> f.nCongestionRetries == 0
    ensures var r := Run(l, f, events); r.IsRunning() && r.scheduled == 0 ==> r.nCongestionRetries == 0
    decreases |events|
  {
    if events != [] {
      RunResetsBackoff(l, Step(l, f, events[0]), events[1..]);
    }
  }

  /** The congestion backoff never grows: whenever a fetcher has an Interest out, rather than
      one scheduled, a congestion Nack makes it wait exactly one millisecond. */
  lemma BackoffNeverGrows(l: Limits, events: seq<Event>)
    ensures var f := Run(l, Fetch(), events);
            f.IsRunning() && f.scheduled == 0 ==> BackoffTime(f) == 1
  {
    RunResetsBackoff(l, Fetch(), events);
  }

  // ------------------------------------------------------------------ exactly when a fetcher gives up

  function Count(events: seq<Event>, e: Event): nat { multiset(events)[e] }

  function CountNacks(events: seq<Event>): nat {
    Count(events, Nack(Duplicate)) + Count(events, Nack(Congestion)) + Count(events, Nack(OtherReason))
  }

  /** `n` retries of a kind are allowed. */
  predicate Allows(limit: int, n: nat) { n == 0 || limit == MAX_RETRIES_INFINITE || n <= limit }

  /** The history after which a fetcher is still running. */
  ghost predicate Survivable(l: Limits, events: seq<Event>) {
    && Count(events, Data) == 0 && Count(events, Cancelled) == 0 && Count(events, Nack(OtherReason)) == 0
    && Allows(l.maxNackRetries, CountNacks(events)) && Allows(l.maxTimeoutRetries, Count(events, Timeout))
  }

  /** What a running fetcher has counted and sent: an Interest at the start and one for each Nack
      and timeout, at once or, after congestion, when the scheduler comes to it. */
  ghost predicate Tallied(l: Limits, f: Fetcher, events: seq<Event>) {
    && f.nCallbacks == 0
    && (l.maxNackRetries != MAX_RETRIES_INFINITE ==> f.nNacks == CountNacks(events))
    && (l.maxTimeoutRetries != MAX_RETRIES_INFINITE ==> f.nTimeouts == Count(events, Timeout))
    && f.nSent + f.scheduled == 1 + CountNacks(events) + Count(events, Timeout)
    && (Count(events, Scheduled) == 0 ==> f.scheduled == Count(events, Nack(Congestion)))
    && f.scheduled <= Count(events, Nack(Congestion))
  }

  lemma OneMoreEvent(events: seq<Event>, e: Event, k: Event)
    ensures Count(events + [e], k) == Count(events, k) + if k == e then 1 else 0
  {
  }

  /** The counts of all kinds of events, one event later. */
  lemma OneMoreOfEach(events: seq<Event>, e: Event)
    ensures var more := events + [e];
            && Count(more, Data) == Count(events, Data) + (if e == Data then 1 else 0)
            && Count(more, Timeout) == Count(events, Timeout) + (if e == Timeout then 1 else 0)
            && Count(more, Scheduled) == Count(events, Scheduled) + (if e == Scheduled then 1 else 0)
            && Count(more, Cancelled) == Count(events, Cancelled) + (if e == Cancelled then 1 else 0)
            && Count(more, Nack(Congestion)) == Count(events, Nack(Congestion)) + (if e == Nack(Congestion) then 1 else 0)
            && Count(more, Nack(OtherReason))
               == Count(events, Nack(OtherReason)) + (if e == Nack(OtherReason) then 1 else 0)
            && CountNacks(more) == CountNacks(events) + (if e.Nack? then 1 else 0)
  {
    hide Count;
    OneMoreEvent(events, e, Data);
    OneMoreEvent(events, e, Timeout);
    OneMoreEvent(events, e, Scheduled);
    OneMoreEvent(events, e, Cancelled);
    OneMoreEvent(events, e, Nack(Duplicate));
    OneMoreEvent(events, e, Nack(Congestion));
    OneMoreEvent(events, e, Nack(OtherReason));
    if e.Nack? {
      assert e.reason == Duplicate || e.reason == Congestion || e.reason == OtherReason;
    }
  }

  lemma StepTallied(l: Limits, f: Fetcher, events: seq<Event>, e: Event)
    requires f.IsRunning() <==> Survivable(l, events)
    requires f.IsRunning() ==> Tallied(l, f, events)
    ensures var r := Step(l, f, e);
            && (r.IsRunning() <==> Survivable(l, events + [e]))
            && (r.IsRunning() ==> Tallied(l, r, events + [e]))
            && (f.IsRunning() && !r.IsRunning() ==> r.nCallbacks == if e == Cancelled then 0 else 1)
            && (!f.IsRunning() ==> r.nCallbacks == f.nCallbacks)
  {
    hide Count, CountNacks;
    OneMoreOfEach(events, e);
  }

  lemma StartTallied(l: Limits)
    ensures Fetch().IsRunning() && Survivable(l, []) && Tallied(l, Fetch(), [])
  {
    assert forall e :: Count([], e) == 0;
    hide Count;
  }

  lemma Occurs(events: seq<Event>, e: Event)
    ensures Count(events, e) == 0 <==> e !in events
  {
  }

  /** The fetcher after any history. */
  lemma Reached(l: Limits, events: seq<Event>)
    ensures var f := Run(l, Fetch(), events);
            && (f.IsRunning() <==> Survivable(l, events))
            && (f.IsRunning() ==> Tallied(l, f, events))
            && (!f.IsRunning() ==> f.nCallbacks <= 1 && (Cancelled !in events ==> f.nCallbacks == 1))
  {
    hide Survivable, Tallied, Run;
    StartTallied(l);
    RunTallied(l, Fetch(), [], events);
    assert [] + events == events;
  }

  lemma {:induction false} RunTallied(l: Limits, f: Fetcher, before: seq<Event>, events: seq<Event>)
    requires f.IsRunning() <==> Survivable(l, before)
    requires f.IsRunning() ==> Tallied(l, f, before)
    ensures var r := Run(l, f, events);
            && (r.IsRunning() <==> Survivable(l, before + events))
            && (r.IsRunning() ==> Tallied(l, r, before + events))
            && (!f.IsRunning() ==> r.nCallbacks == f.nCallbacks)
            && (f.IsRunning() && !r.IsRunning() ==>
                  r.nCallbacks <= 1 && (Cancelled !in events ==> r.nCallbacks == 1))
    decreases |events|
  {
    hide Survivable, Tallied;
    if events == [] {
      assert before + events == before;
    } else {
      StepTallied(l, f, before, events[0]);
      RunTallied(l, Step(l, f, events[0]), before + [events[0]], events[1..]);
      assert before + [events[0]] + events[1..] == before + events;
    }
  }

  /** Over any history a fetcher is still running if and only if there has been no Data, no
      cancellation and no Nack but for a duplicate or congestion, and the Nacks and the timeouts
      are within their limits.  It has then sent one Interest at the start and one for each Nack
      and timeout, but for those the scheduler still holds, and run no callback; and when it has
      come to a stop without being cancelled, it has run one. */
  lemma FetcherRunsExactly(l: Limits, events: seq<Event>)
    ensures var f := Run(l, Fetch(), events);
            && (f.IsRunning() <==>
                  && Data !in events && Cancelled !in events && Nack(OtherReason) !in events
                  && Allows(l.maxNackRetries, CountNacks(events))
                  && Allows(l.maxTimeoutRetries, Count(events, Timeout)))
            && (f.IsRunning() ==>
                  && f.nCallbacks == 0
                  && f.nSent + f.scheduled == 1 + CountNacks(events) + Count(events, Timeout)
                  && (Scheduled !in events ==> f.scheduled == Count(events, Nack(Congestion)))
                  && (Nack(Congestion) !in events ==> f.scheduled == 0))
            && (!f.IsRunning() && Cancelled !in events ==> f.nCallbacks == 1)
  {
    hide Run, Count, CountNacks;
    Reached(l, events);
    Occurs(events, Data);
    Occurs(events, Cancelled);
    Occurs(events, Nack(OtherReason));
    Occurs(events, Nack(Congestion));
    Occurs(events, Scheduled);
  }

  /** What the owner is told: that Data came, or that the fetcher has given up, which it does
      exactly on a fatal Nack or one Nack or timeout too many. */
  lemma ReportsExactly(l: Limits, events: seq<Event>, e: Event)
    ensures var f := Run(l, Fetch(), events); var r := React(l, f, e);
            && (r.report == GotData <==> f.IsRunning() && e == Data)
            && (r.report == GaveUp <==>
                  && f.IsRunning()
                  && (|| e == Nack(OtherReason)
                      || (e.Nack? && !Allows(l.maxNackRetries, CountNacks(events) + 1))
                      || (e == Timeout && !Allows(l.maxTimeoutRetries, Count(events, Timeout) + 1))))
            && (r.report == GaveUp ==> r.fetcher.hasError)
  {
    hide Run, Count, CountNacks;
    Reached(l, events);
  }

  /** A fetcher that has stopped sends only what the scheduler still holds. */
  lemma {:induction false} StoppedSendsScheduled(l: Limits, f: Fetcher, events: seq<Event>)
    requires !f.IsRunning()
    ensures var r := Run(l, f, events);
            && !r.IsRunning() && r.hasError == f.hasError && r.nCallbacks == f.nCallbacks
            && r.nSent + r.scheduled == f.nSent + f.scheduled && r.nSent >= f.nSent
    decreases |events|
  {
    if events != [] {
      StoppedSendsScheduled(l, Step(l, f, events[0]), events[1..]);
    }
  }

  /** Cancelling a running fetcher silences it. */
  lemma CancelledIsSilent(l: Limits, f: Fetcher, events: seq<Event>)
    requires f.IsRunning()
    ensures Run(l, f, [Cancelled] + events).nSent == f.nSent
  {
    assert ([Cancelled] + events)[1..] == events;
    StoppedSendsScheduled(l, Cancel(f), events);
  }

  function Backoffs(f: Fetcher, n: nat): Fetcher { if n == 0 then f else Backoff(Backoffs(f, n - 1)) }

  lemma {:induction false} Pow2Grows(m: nat, n: nat)
    requires m <= n
    ensures Pow2(m) <= Pow2(n)
    decreases n
  {
    if m < n {
      Pow2Grows(m, n - 1);
    }
  }

  /** With no Interest sent in between, the waiting times of congestion Nacks double from one
      millisecond up to ten seconds. */
  lemma {:induction false} BackoffDoubles(f: Fetcher, n: nat)
    requires f.nCongestionRetries == 0
    ensures BackoffTime(Backoffs(f, n)) == if Pow2(n) > 10000 then 10000 else Pow2(n)
    ensures if Pow2(n) > 10000 then Pow2(Backoffs(f, n).nCongestionRetries) > 10000
            else Backoffs(f, n).nCongestionRetries == n
    decreases n
  {
    if n > 0 {
      BackoffDoubles(f, n - 1);
      Pow2Grows(n - 1, n);
    }
  }
}
