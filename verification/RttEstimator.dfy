/** The mean-deviation RTT estimator of section 2 of RFC 6298, with the weights of Appendix G
    of RFC 7323. */
module RttEstimation {
  import opened Optional

  datatype Options = Options(alpha: real, beta: real, k: real, minRto: real, maxRto: real, multiplier: real)
  {
    ghost predicate Valid() {
      0.0 <= alpha <= 1.0 && 0.0 <= beta <= 1.0 && 0.0 <= minRto <= maxRto
    }
  }

  datatype Averages = Averages(sRtt: real, rttVar: real)

  /** `averages` is None until the first measurement, where the source has NaN. */
  datatype Estimate = Estimate(averages: Option<Averages>, rto: real)

  function Clamp(x: real, lo: real, hi: real): real { if x < lo then lo else if x > hi then hi else x }

  function Abs(x: real): real { if x < 0.0 then -x else x }

  /** `x` with weight `1 - w`, `y` with weight `w`. */
  function Mix(w: real, x: real, y: real): real { (1.0 - w) * x + w * y }

  function AfterMeasurement(o: Options, e: Estimate, rtt: real, nExpectedSamples: nat): Estimate
    requires nExpectedSamples > 0
  {
    var a := match e.averages
      case None => Averages(rtt, rtt / 2.0)
      case Some(a) =>
        Averages(Mix(o.alpha / nExpectedSamples as real, a.sRtt, rtt),
                 Mix(o.beta / nExpectedSamples as real, a.rttVar, Abs(a.sRtt - rtt)));
    Estimate(Some(a), Clamp(a.sRtt + o.k * a.rttVar, o.minRto, o.maxRto))
  }

  function Times(x: real, y: real): real { x * y }

  function AfterBackoff(o: Options, e: Estimate): Estimate {
    e.(rto := Clamp(Times(e.rto, o.multiplier), o.minRto, o.maxRto))
  }

  // ------------------------------------------------------------------ runs

  datatype Event = Measured(rtt: real, nExpectedSamples: nat) | BackedOff

  function Step(o: Options, e: Estimate, event: Event): Estimate
    requires event.Measured? ==> event.nExpectedSamples > 0
  {
    match event
    case Measured(rtt, n) => AfterMeasurement(o, e, rtt, n)
    case BackedOff => AfterBackoff(o, e)
  }

  ghost predicate Between(events: seq<Event>, lo: real, hi: real) {
    forall i :: 0 <= i < |events| && events[i].Measured? ==>
      lo <= events[i].rtt <= hi && events[i].nExpectedSamples > 0
  }

  ghost function Run(o: Options, e: Estimate, events: seq<Event>): Estimate
    requires forall i :: 0 <= i < |events| && events[i].Measured? ==> events[i].nExpectedSamples > 0
    decreases |events|
  {
    if events == [] then e else Run(o, Step(o, e, events[0]), events[1..])
  }

  function Larger(x: real, y: real): real { if x > y then x else y }

  /** The averages of samples between `lo` and `hi`, the first of which was at most `2 * half`. */
  ghost predicate Averaged(e: Estimate, lo: real, hi: real, half: real) {
    e.averages.Some? ==> lo <= e.averages.value.sRtt <= hi && 0.0 <= e.averages.value.rttVar <= Larger(half, hi - lo)
  }

  lemma Product(a: real, b: real)
    requires a >= 0.0 && b >= 0.0
    ensures a * b >= 0.0
  {
  }

  lemma MixBetween(w: real, x: real, y: real, lo: real, hi: real)
    requires 0.0 <= w <= 1.0 && lo <= x <= hi && lo <= y <= hi
    ensures lo <= Mix(w, x, y) <= hi
  {
    Product(1.0 - w, x - lo);
    Product(w, y - lo);
    assert Mix(w, x, y) - lo == (1.0 - w) * (x - lo) + w * (y - lo);
    Product(1.0 - w, hi - x);
    Product(w, hi - y);
    assert hi - Mix(w, x, y) == (1.0 - w) * (hi - x) + w * (hi - y);
  }

  lemma WeightIsSmall(w: real, n: nat)
    requires 0.0 <= w <= 1.0 && n > 0
    ensures 0.0 <= w / n as real <= 1.0
  {
    var q := w / n as real;
    assert q * n as real == w;
    if q >= 0.0 {
      Product(q, n as real - 1.0);
      assert q * n as real - q == q * (n as real - 1.0);
    }
  }

  lemma MeasurementKeeps(o: Options, e: Estimate, rtt: real, n: nat, lo: real, hi: real, half: real)
    requires o.Valid() && Averaged(e, lo, hi, half) && 0.0 <= lo <= rtt <= hi && n > 0
    requires e.averages.None? ==> rtt / 2.0 <= half
    ensures Averaged(AfterMeasurement(o, e, rtt, n), lo, hi, half)
  {
    match e.averages
    case None =>
    case Some(a) =>
      WeightIsSmall(o.alpha, n);
      WeightIsSmall(o.beta, n);
      MixBetween(o.alpha / n as real, a.sRtt, rtt, lo, hi);
      MixBetween(o.beta / n as real, a.rttVar, Abs(a.sRtt - rtt), 0.0, Larger(half, hi - lo));
  }

  /** Whether the run has begun with a measurement of `first`. */
  ghost predicate StartsWith(events: seq<Event>, first: real) {
    events != [] && (match events[0] case Measured(rtt, _) => rtt == first case BackedOff => StartsWith(events[1..], first))
  }

  lemma {:induction false} RunKeeps(o: Options, e: Estimate, events: seq<Event>, lo: real, hi: real, first: real)
    requires o.Valid() && 0.0 <= lo && Between(events, lo, hi) && Averaged(e, lo, hi, first / 2.0)
    requires e.averages.None? ==> StartsWith(events, first)
    ensures Averaged(Run(o, e, events), lo, hi, first / 2.0)
    ensures events != [] ==> o.minRto <= Run(o, e, events).rto <= o.maxRto
    decreases |events|
  {
    if events != [] {
      var event := events[0];
      if event.Measured? {
        MeasurementKeeps(o, e, event.rtt, event.nExpectedSamples, lo, hi, first / 2.0);
      }
      assert forall i :: 0 <= i < |events| - 1 ==> events[1..][i] == events[i + 1];
      RunKeeps(o, Step(o, e, event), events[1..], lo, hi, first);
    }
  }

  /** For samples between `lo` and `hi`, whatever the expected sample counts and the backoffs in
      between: the smoothed RTT stays between `lo` and `hi`, the deviation below half the first
      sample or the spread, and the RTO within its bounds. */
  lemma EstimatesStayInRange(o: Options, initialRto: real, events: seq<Event>, lo: real, hi: real, first: real)
    requires o.Valid() && 0.0 <= lo && Between(events, lo, hi) && StartsWith(events, first)
    ensures var e := Run(o, Estimate(None, initialRto), events);
            && (e.averages.Some? ==>
                  lo <= e.averages.value.sRtt <= hi
                  && 0.0 <= e.averages.value.rttVar <= Larger(first / 2.0, hi - lo))
            && o.minRto <= e.rto <= o.maxRto
  {
    RunKeeps(o, Estimate(None, initialRto), events, lo, hi, first);
  }

  // ------------------------------------------------------------------ backoff

  /** `x` times the `n`-th power of `m`. */
  function Multiplied(x: real, m: real, n: nat): real { if n == 0 then x else Times(Multiplied(x, m, n - 1), m) }

  function Backoffs(o: Options, e: Estimate, n: nat): Estimate {
    if n == 0 then e else AfterBackoff(o, Backoffs(o, e, n - 1))
  }

  /** Clamping before one more multiplication changes nothing, whichever side of one the
      multiplier is on: `y` is on the same side of `x`. */
  lemma ClampOnce(x: real, y: real, m: real, lo: real, hi: real)
    requires 0.0 <= lo <= x <= hi && m >= 0.0 && (if m >= 1.0 then y >= x else 0.0 <= y <= x)
    ensures Clamp(Times(Clamp(y, lo, hi), m), lo, hi) == Clamp(Times(y, m), lo, hi)
  {
    if y > hi {
      Product(m - 1.0, hi);
      Product(m, y - hi);
      assert hi * m - hi == (m - 1.0) * hi && y * m - hi * m == m * (y - hi);
    } else if y < lo {
      Product(1.0 - m, lo);
      Product(m, lo - y);
      assert lo - lo * m == (1.0 - m) * lo && lo * m - y * m == m * (lo - y);
    }
  }

  /** Repeated multiplication moves `x` to one side only. */
  lemma {:induction false} MultipliedSide(x: real, m: real, n: nat)
    requires m >= 0.0 && x >= 0.0
    ensures if m >= 1.0 then Multiplied(x, m, n) >= x else 0.0 <= Multiplied(x, m, n) <= x
    decreases n
  {
    if n > 0 {
      MultipliedSide(x, m, n - 1);
      var y := Multiplied(x, m, n - 1);
      if m >= 1.0 {
        Product(m - 1.0, y);
        assert y * m - y == (m - 1.0) * y;
      } else {
        Product(1.0 - m, y);
        Product(y, m);
        assert y - y * m == (1.0 - m) * y;
      }
    }
  }

  /** Any number of backoffs from an RTO in range amounts to one clamp of the RTO times the
      multiplier to that power. */
  lemma {:induction false} BackoffsAreOneClamp(o: Options, e: Estimate, n: nat)
    requires o.Valid() && o.minRto <= e.rto <= o.maxRto && o.multiplier >= 0.0
    ensures Backoffs(o, e, n).rto == Clamp(Multiplied(e.rto, o.multiplier, n), o.minRto, o.maxRto)
    decreases n
  {
    hide Times;
    if n > 0 {
      BackoffsAreOneClamp(o, e, n - 1);
      MultipliedSide(e.rto, o.multiplier, n - 1);
      ClampOnce(e.rto, Multiplied(e.rto, o.multiplier, n - 1), o.multiplier, o.minRto, o.maxRto);
    }
  }

  // ------------------------------------------------------------------ what a sample changes

  /** `x` kept within its bounds. */
  ghost predicate Clamped(rto: real, x: real, lo: real, hi: real) {
    && lo <= rto <= hi
    && (lo <= x <= hi ==> rto == x) && (x < lo ==> rto == lo) && (x > hi ==> rto == hi)
  }

  lemma Remainder(w: real, x: real, y: real)
    ensures y - Mix(w, x, y) == (1.0 - w) * (y - x)
  {
    var kept := 1.0 - w;
    assert (kept + w) * y == kept * y + w * y;
    assert kept * (y - x) == kept * y - kept * x;
  }

  /** The first sample is the smoothed RTT, and half of it the deviation. */
  lemma FirstSample(o: Options, e: Estimate, rtt: real, n: nat)
    requires o.Valid() && n > 0 && e.averages.None?
    ensures var r := AfterMeasurement(o, e, rtt, n);
            && r.averages.Some? && r.averages.value.sRtt == rtt
            && r.averages.value.rttVar + r.averages.value.rttVar == rtt
            && Clamped(r.rto, rtt + o.k * r.averages.value.rttVar, o.minRto, o.maxRto)
  {
  }

  /** A later sample takes the smoothed RTT the share alpha / n of the way to the sample, and the
      deviation the share beta / n of the way to the distance of the sample from the smoothed RTT
      before it; the RTO is the new smoothed RTT with k times the new deviation, within its bounds. */
  lemma LaterSample(o: Options, e: Estimate, rtt: real, n: nat, error: real)
    requires o.Valid() && n > 0 && e.averages.Some?
    requires error >= 0.0 && (error == rtt - e.averages.value.sRtt || error == e.averages.value.sRtt - rtt)
    ensures var a := e.averages.value; var r := AfterMeasurement(o, e, rtt, n);
            && r.averages.Some?
            && rtt - r.averages.value.sRtt == (1.0 - o.alpha / n as real) * (rtt - a.sRtt)
            && error - r.averages.value.rttVar == (1.0 - o.beta / n as real) * (error - a.rttVar)
            && Clamped(r.rto, r.averages.value.sRtt + o.k * r.averages.value.rttVar, o.minRto, o.maxRto)
  {
    var a := e.averages.value;
    assert Abs(a.sRtt - rtt) == error;
    Remainder(o.alpha / n as real, a.sRtt, rtt);
    Remainder(o.beta / n as real, a.rttVar, error);
    hide Mix;
  }

  /** `n` equal samples, each with one expected. */
  function Repeated(rtt: real, n: nat): (events: seq<Event>)
    ensures |events| == n && forall i :: 0 <= i < n ==> events[i] == Measured(rtt, 1)
  {
    if n == 0 then [] else [Measured(rtt, 1)] + Repeated(rtt, n - 1)
  }

  lemma {:induction false} MultipliedFirst(x: real, m: real, n: nat)
    ensures Multiplied(Times(x, m), m, n) == Multiplied(x, m, n + 1)
    decreases n
  {
    hide Times;
    if n > 0 {
      MultipliedFirst(x, m, n - 1);
    }
  }

  lemma OneSample(o: Options, e: Estimate, rtt: real)
    requires o.Valid() && e.averages.Some?
    ensures var r := AfterMeasurement(o, e, rtt, 1);
            && r.averages.Some?
            && rtt - r.averages.value.sRtt == Times(rtt - e.averages.value.sRtt, 1.0 - o.alpha)
  {
    var gap, kept := rtt - e.averages.value.sRtt, 1.0 - o.alpha;
    LaterSample(o, e, rtt, 1, Abs(gap));
    assert o.alpha / 1 as real == o.alpha;
    hide AfterMeasurement;
    assert kept * gap == gap * kept;
  }

  /** `n` equal samples leave the `n`-th power of `1 - alpha` of the first error. */
  lemma {:induction false} EqualSamplesConverge(o: Options, e: Estimate, rtt: real, n: nat)
    requires o.Valid() && e.averages.Some?
    ensures var r := Run(o, e, Repeated(rtt, n));
            && r.averages.Some?
            && rtt - r.averages.value.sRtt == Multiplied(rtt - e.averages.value.sRtt, 1.0 - o.alpha, n)
    decreases n
  {
    hide AfterMeasurement, Times;
    if n > 0 {
      var e1 := AfterMeasurement(o, e, rtt, 1);
      OneSample(o, e, rtt);
      assert Repeated(rtt, n)[1..] == Repeated(rtt, n - 1);
      assert Step(o, e, Repeated(rtt, n)[0]) == e1;
      EqualSamplesConverge(o, e1, rtt, n - 1);
      MultipliedFirst(rtt - e.averages.value.sRtt, 1.0 - o.alpha, n - 1);
    }
  }

  /** With the default weights, samples of 100 and 200 milliseconds give 112.5 and an RTO of 362.5. */
  lemma TwoSamples()
    ensures var o := Options(0.125, 0.25, 4.0, 200.0, 20000.0, 2.0);
            var e := Run(o, Estimate(None, 1000.0), [Measured(100.0, 1), Measured(200.0, 1)]);
            e == Estimate(Some(Averages(112.5, 62.5)), 362.5)
  {
    var o := Options(0.125, 0.25, 4.0, 200.0, 20000.0, 2.0);
    var events := [Measured(100.0, 1), Measured(200.0, 1)];
    assert events[1..] == [events[1]] && events[1..][1..] == [];
    var e1 := Step(o, Estimate(None, 1000.0), events[0]);
    assert e1 == Estimate(Some(Averages(100.0, 50.0)), 300.0);
    var e2 := Step(o, e1, events[1]);
    assert Run(o, e1, events[1..]) == Run(o, e2, []) == e2;
  }

  // ------------------------------------------------------------------ the object

  class RttEstimator {
    const options: Options
    var averages: Option<Averages>
    var rto: real

    ghost function View(): Estimate
      reads this
    {
      Estimate(averages, rto)
    }

    constructor (options: Options, initialRto: real)
      ensures this.options == options && View() == Estimate(None, initialRto)
    {
      this.options := options;
      averages, rto := None, initialRto;
    }

    method AddMeasurement(rtt: real, nExpectedSamples: nat)
      requires nExpectedSamples > 0
      modifies this
      ensures View() == AfterMeasurement(options, old(View()), rtt, nExpectedSamples)
    {
      var sRtt, rttVar := rtt, rtt / 2.0;
      if averages.Some? {
        var alpha := options.alpha / nExpectedSamples as real;
        var beta := options.beta / nExpectedSamples as real;
        rttVar := Mix(beta, averages.value.rttVar, Abs(averages.value.sRtt - rtt));
        sRtt := Mix(alpha, averages.value.sRtt, rtt);
      }
      averages := Some(Averages(sRtt, rttVar));
      rto := sRtt + options.k * rttVar;
      rto := Clamp(rto, options.minRto, options.maxRto);
    }

    method BackoffRto()
      modifies this`rto
      ensures View() == AfterBackoff(options, old(View()))
    {
      rto := Clamp(rto * options.multiplier, options.minRto, options.maxRto);
    }
  }
}
