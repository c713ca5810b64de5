/** The DataFetcher object.  Its Interests and scheduled retries are recorded, its callbacks
    are reported to the caller. */
module DataFetcher {
  import opened Network
  import F = DataFetcherSpec

  class DataFetcher {
    const maxNackRetries: int
    const maxTimeoutRetries: int
    var nNacks: nat
    var nTimeouts: nat
    var nCongestionRetries: nat
    var isStopped: bool
    var hasError: bool
    var scheduled: nat
    ghost var nSent: nat
    ghost var nCallbacks: nat

    ghost function Limits(): F.Limits { F.Limits(maxNackRetries, maxTimeoutRetries) }

    ghost function View(): F.Fetcher
      reads this
    {
      F.Fetcher(nNacks, nTimeouts, nCongestionRetries, isStopped, hasError, scheduled, nSent, nCallbacks)
    }

    predicate IsRunning()
      reads this
    {
      !isStopped && !hasError
    }

    /** `fetch`: construct the object and send the first Interest. */
    constructor (maxNackRetries: int, maxTimeoutRetries: int)
      ensures View() == F.Fetch() && Limits() == F.Limits(maxNackRetries, maxTimeoutRetries)
    {
      this.maxNackRetries, this.maxTimeoutRetries := maxNackRetries, maxTimeoutRetries;
      nNacks, nTimeouts, nCongestionRetries := 0, 0, 0;
      isStopped, hasError, scheduled := false, false, 0;
      nSent, nCallbacks := 0, 0;
      new;
      ExpressInterest();
    }

    method ExpressInterest()
      modifies this`nCongestionRetries, this`nSent
      ensures View() == F.ExpressInterest(old(View()))
    {
      nCongestionRetries := 0;
      nSent := nSent + 1;
    }

    method Cancel()
      modifies this`isStopped, this`scheduled
      ensures View() == F.Cancel(old(View()))
    {
      if IsRunning() {
        isStopped := true;
        scheduled := 0;
      }
    }

    method HandleData() returns (report: F.Report)
      modifies this
      ensures F.Reaction(View(), report) == F.HandleData(old(View()))
    {
      report := F.Nothing;
      if IsRunning() {
        isStopped := true;
        nCallbacks := nCallbacks + 1;
        report := F.GotData;
      }
    }

    method Fail() returns (report: F.Report)
      modifies this`hasError, this`nCallbacks
      ensures F.Reaction(View(), report) == F.Fail(old(View()))
    {
      hasError := true;
      nCallbacks := nCallbacks + 1;
      report := F.GaveUp;
    }

    method Backoff()
      modifies this`scheduled, this`nCongestionRetries
      ensures View() == F.Backoff(old(View()))
    {
      if F.Pow2(nCongestionRetries) <= F.MAX_CONGESTION_BACKOFF_TIME {
        nCongestionRetries := nCongestionRetries + 1;
      }
      scheduled := scheduled + 1;
    }

    method HandleNack(reason: NackReason) returns (report: F.Report)
      modifies this
      ensures F.Reaction(View(), report) == F.HandleNack(Limits(), old(View()), reason)
    {
      report := F.Nothing;
      if IsRunning() {
        if maxNackRetries != F.MAX_RETRIES_INFINITE {
          nNacks := nNacks + 1;
        }
        if nNacks <= maxNackRetries || maxNackRetries == F.MAX_RETRIES_INFINITE {
          match reason
          case Duplicate => ExpressInterest();
          case Congestion => Backoff();
          case OtherReason => report := Fail();
        } else {
          report := Fail();
        }
      }
    }

    method HandleTimeout() returns (report: F.Report)
      modifies this
      ensures F.Reaction(View(), report) == F.HandleTimeout(Limits(), old(View()))
    {
      report := F.Nothing;
      if IsRunning() {
        if maxTimeoutRetries != F.MAX_RETRIES_INFINITE {
          nTimeouts := nTimeouts + 1;
        }
        if nTimeouts <= maxTimeoutRetries || maxTimeoutRetries == F.MAX_RETRIES_INFINITE {
          ExpressInterest();
        } else {
          report := Fail();
        }
      }
    }

    /** A scheduled expressInterest runs. */
    method Wake()
      modifies this
      ensures View() == F.Wake(old(View()))
    {
      if scheduled > 0 {
        scheduled := scheduled - 1;
        ExpressInterest();
      }
    }

    method React(e: F.Event) returns (report: F.Report)
      modifies this
      ensures F.Reaction(View(), report) == F.React(Limits(), old(View()), e)
    {
      report := F.Nothing;
      match e
      case Data => report := HandleData();
      case Nack(reason) => report := HandleNack(reason);
      case Timeout => report := HandleTimeout();
      case Scheduled => Wake();
      case Cancelled => Cancel();
    }
  }
}
