/** The window policy of the BIC pipeline: binary search for the window at which the last loss
    occurred, and max probing beyond it. */
module BicWindow {
  import opened Reals

  const LOW_WINDOW := 14.0
  const MAX_INCREMENT := 16
  const MAX_INT := 2147483647

  /** Parameters that the constructor of the source leaves unset, and so are free here. */
  datatype Options = Options(beta: real, resetToInitial: bool, initialWindow: int)
  {
    /** Ranges under which the window stays positive, so that no update divides by zero. */
    ghost predicate Valid() { beta > 0.0 && (resetToInitial ==> initialWindow > 0) }
  }

  datatype Window = Window(
    cwnd: real,
    ssthresh: real,
    isBicSs: bool,      // max probing
    targetWin: real,
    minWin: real,
    maxWin: real,
    ssCwnd: int,
    ssTarget: int)

  function Middle(x: real, y: real): real { (x + y) / 2.0 }

  /** Conversion of a non-negative double to int. */
  function Truncated(x: real): int { x.Floor }

  /** One step of the search. */
  function Searched(w: Window): Window
    requires w.cwnd > 0.0
  {
    var cwnd :=
      if w.targetWin - w.cwnd < MAX_INCREMENT as real then w.cwnd + (w.targetWin - w.cwnd) / w.cwnd
      else w.cwnd + MAX_INCREMENT as real / w.cwnd;
    if cwnd + 0.00001 < w.maxWin then
      w.(cwnd := cwnd, minWin := cwnd, targetWin := Middle(w.maxWin, cwnd))
    else
      w.(cwnd := cwnd, isBicSs := true, ssCwnd := 1, ssTarget := Truncated(cwnd + 1.0), maxWin := MAX_INT as real)
  }

  /** One step of max probing. */
  function Probed(w: Window): Window
    requires w.cwnd > 0.0
  {
    var cwnd := w.cwnd + w.ssCwnd as real / w.cwnd;
    var reached := cwnd >= w.ssTarget as real;
    var ssCwnd := if reached then 2 * w.ssCwnd else w.ssCwnd;
    w.(cwnd := cwnd, ssCwnd := ssCwnd,
       ssTarget := if reached then Truncated(cwnd + ssCwnd as real) else w.ssTarget,
       isBicSs := ssCwnd < MAX_INCREMENT)
  }

  function Increased(w: Window): Window
    requires w.cwnd > 0.0
  {
    if w.cwnd < LOW_WINDOW then
      w.(cwnd := if w.cwnd <= w.ssthresh then w.cwnd + 1.0 else w.cwnd + 1.0 / w.cwnd)
    else if !w.isBicSs then Searched(w)
    else Probed(w)
  }

  function Decreased(o: Options, w: Window): Window {
    var w1 :=
      if w.cwnd >= LOW_WINDOW then
        var cwnd := w.cwnd * o.beta;
        var maxWin := if w.maxWin > w.cwnd then Middle(w.cwnd, cwnd) else w.cwnd;
        w.(cwnd := cwnd, minWin := cwnd, maxWin := maxWin, targetWin := Middle(maxWin, cwnd))
      else w.(cwnd := w.cwnd * 0.5, ssthresh := w.cwnd * 0.5);
    if o.resetToInitial then w1.(ssthresh := w1.cwnd * 0.5, cwnd := o.initialWindow as real) else w1
  }

  /** A positive window, and bounds of the search that keep it so. */
  ghost predicate Positive(w: Window) {
    w.cwnd > 0.0 && w.targetWin >= 0.0 && w.maxWin >= 0.0 && w.ssCwnd >= 0
  }

  function Initial(initCwnd: real, initSsthresh: real): Window {
    Window(initCwnd, initSsthresh, false, 0.0, 0.0, MAX_INT as real, 0, 0)
  }

  lemma ShareOfGap(target: real, cwnd: real)
    requires target >= 0.0 && cwnd > 0.0
    ensures (target - cwnd) / cwnd >= -1.0
  {
    var q := (target - cwnd) / cwnd;
    assert q * cwnd == target - cwnd;
    Distributed(q, 1.0, cwnd);
    Signs(q + 1.0, cwnd);
  }

  lemma Distributed(a: real, b: real, c: real)
    ensures (a + b) * c == a * c + b * c
  {
  }

  /** A product with a positive number has the sign of the other factor. */
  lemma Signs(a: real, c: real)
    requires c > 0.0
    ensures a * c < 0.0 <==> a < 0.0
  {
  }

  lemma WithInverse(x: real)
    requires x > 0.0
    ensures x + 1.0 / x >= 2.0
  {
    var inverse := 1.0 / x;
    assert inverse * x == 1.0;
    assert (x - 1.0) * (x - 1.0) >= 0.0;
    assert (x - 1.0) * (x - 1.0) == x * x - 2.0 * x + 1.0;
    Distributed(x, inverse, x);
    Distributed(x + inverse, -2.0, x);
    Signs(x + inverse + -2.0, x);
  }

  lemma IncreasedStaysPositive(w: Window)
    requires Positive(w)
    ensures Positive(Increased(w)) && (w.cwnd >= LOW_WINDOW ==> Increased(w).cwnd >= w.cwnd - 1.0)
  {
    ShareOfGap(w.targetWin, w.cwnd);
    assert w.ssCwnd as real / w.cwnd >= 0.0;
  }

  lemma DecreasedStaysPositive(o: Options, w: Window)
    requires o.Valid() && Positive(w)
    ensures Positive(Decreased(o, w))
  {
  }

  /** One acknowledgement brings a window of at least one segment to at least two. */
  lemma IncreaseReachesTwo(w: Window)
    requires Positive(w) && w.cwnd >= 1.0
    ensures Increased(w).cwnd >= 2.0
  {
    if w.cwnd < LOW_WINDOW {
      WithInverse(w.cwnd);
    } else {
      IncreasedStaysPositive(w);
    }
  }

  /** One loss event leaves at least one segment of a window of at least two. */
  lemma DecreaseLeavesOne(o: Options, w: Window)
    requires o.Valid() && o.beta >= 0.1 && (o.resetToInitial ==> o.initialWindow >= 1)
    requires Positive(w) && w.cwnd >= 2.0
    ensures Decreased(o, w).cwnd >= 1.0
  {
  }

  // ------------------------------------------------------------------ the search

  /** A search is on: the window is between the lower end of the interval and the target, which
      is its middle, and the upper end has not been reached. */
  ghost predicate Searching(w: Window) {
    && !w.isBicSs && w.cwnd >= LOW_WINDOW
    && w.minWin == w.cwnd < w.maxWin && w.targetWin == Middle(w.maxWin, w.cwnd)
  }

  /** Without reset, a loss starts a search exactly when the pipeline is not max probing and its
      window stays at 14 segments or more. */
  lemma LossStartsSearch(o: Options, w: Window)
    requires 0.0 < o.beta < 1.0 && !o.resetToInitial && w.cwnd > 0.0
    ensures var r := Decreased(o, w);
            && (Searching(r) <==> !w.isBicSs && w.cwnd * o.beta >= LOW_WINDOW)
            && (Searching(r) ==> r.minWin <= r.cwnd <= r.targetWin <= r.maxWin <= w.cwnd)
  {
    var kept := w.cwnd * o.beta;
    assert w.cwnd * (1.0 - o.beta) > 0.0;
    assert w.cwnd - kept == w.cwnd * (1.0 - o.beta);
    assert kept < w.cwnd;
  }

  lemma Divided(x: real, d: real, bound: real)
    requires d >= 1.0 && x >= 0.0 && x <= bound
    ensures 0.0 <= x / d <= x && (x > 0.0 ==> x / d > 0.0)
  {
  }

  /** Each ack raises the window, never past the target, and either the search goes on in the
      upper part of the interval or max probing begins. */
  lemma AckSearches(w: Window)
    requires Searching(w)
    ensures var r := Increased(w);
            && w.cwnd < r.cwnd <= w.targetWin <= w.maxWin
            && (r.isBicSs || (Searching(r) && r.maxWin == w.maxWin && r.minWin <= r.cwnd <= r.targetWin <= r.maxWin))
  {
    var gap := w.targetWin - w.cwnd;
    Divided(gap, w.cwnd, gap);
    Divided(MAX_INCREMENT as real, w.cwnd, MAX_INCREMENT as real);
  }

  // ------------------------------------------------------------------ the search ends

  /** What an ack adds at least, while the search goes on. */
  function LeastGain(maxWin: real): real
    requires maxWin > 0.0
  {
    0.000005 / maxWin
  }

  lemma Spread(x: real, least: real, d: real, top: real)
    requires x >= least > 0.0 && 0.0 < d <= top
    ensures x / d >= least / top
  {
    var q := least / top;
    assert q * top == least;
    assert q > 0.0;
    assert q * (top - d) >= 0.0;
    assert q * d <= x;
    assert x / d >= (q * d) / d == q;
  }

  lemma SearchGains(w: Window)
    requires Searching(w) && !Increased(w).isBicSs
    ensures Increased(w).cwnd >= w.cwnd + LeastGain(w.maxWin)
  {
    AckSearches(w);
    var gap := w.targetWin - w.cwnd;
    assert gap >= 0.000005;
    Spread(gap, 0.000005, w.cwnd, w.maxWin);
    Spread(MAX_INCREMENT as real, 0.000005, w.cwnd, w.maxWin);
  }

  /** Within `n` acks max probing begins. */
  ghost predicate ProbesWithin(w: Window, n: nat)
    requires w.cwnd > 0.0
    decreases n
  {
    w.isBicSs || (n > 0 && Increased(w).cwnd > 0.0 && ProbesWithin(Increased(w), n - 1))
  }

  lemma {:induction false} SearchEndsWithin(w: Window, n: nat)
    requires Searching(w) && Multiple(n, LeastGain(w.maxWin)) > w.maxWin - w.cwnd
    ensures ProbesWithin(w, n)
    decreases n
  {
    hide LeastGain, Increased;
    AckSearches(w);
    var r := Increased(w);
    if !r.isBicSs {
      SearchGains(w);
      SearchEndsWithin(r, n - 1);
    }
  }

  /** The acks that a search can take. */
  function AckBound(w: Window): int { ((w.maxWin - w.cwnd) * w.maxWin / 0.000005).Floor + 1 }

  /** Every search ends in max probing, within a number of acks that its interval determines. */
  lemma SearchEnds(w: Window)
    requires Searching(w)
    ensures AckBound(w) >= 1 && ProbesWithin(w, AckBound(w))
  {
    var gap := w.maxWin - w.cwnd;
    var acks := gap * w.maxWin / 0.000005;
    assert gap * w.maxWin > 0.0;
    var n := AckBound(w);
    assert n as real > acks;
    MultipleIsProduct(n, LeastGain(w.maxWin));
    GainExceeds(gap, w.maxWin, n);
    SearchEndsWithin(w, n);
  }

  lemma GainExceeds(gap: real, maxWin: real, n: nat)
    requires maxWin > 0.0 && n as real > gap * maxWin / 0.000005
    ensures n as real * LeastGain(maxWin) > gap
  {
    var d := LeastGain(maxWin);
    assert d * maxWin == 0.000005;
    assert d > 0.0;
    var extra := n as real - gap * maxWin / 0.000005;
    assert extra * d > 0.0;
    assert gap * maxWin / 0.000005 * d == gap;
    assert n as real * d == extra * d + gap * maxWin / 0.000005 * d;
  }

  // ------------------------------------------------------------------ what each update adds

  lemma GainTimesWindow(x: real, gain: real, total: real)
    requires x > 0.0 && gain == total / x
    ensures gain * x == total
  {
  }

  function Smaller(x: real, y: real): real { if x < y then x else y }

  /** Below 14 segments an acknowledgement adds one segment up to the threshold and beyond it one to
      every window's worth; a search moves by what is left to the target, but no more than 16, to
      every window's worth; and max probing by its current step. */
  lemma AckGains(w: Window)
    requires w.cwnd > 0.0
    ensures var gain := Increased(w).cwnd - w.cwnd;
            if w.cwnd < 14.0 && w.cwnd <= w.ssthresh then gain == 1.0
            else gain * w.cwnd ==
                 if w.cwnd < 14.0 then 1.0
                 else if w.isBicSs then w.ssCwnd as real
                 else Smaller(w.targetWin - w.cwnd, 16.0)
  {
    GainTimesWindow(w.cwnd, 1.0 / w.cwnd, 1.0);
    GainTimesWindow(w.cwnd, (w.targetWin - w.cwnd) / w.cwnd, w.targetWin - w.cwnd);
    GainTimesWindow(w.cwnd, 16.0 / w.cwnd, 16.0);
    GainTimesWindow(w.cwnd, w.ssCwnd as real / w.cwnd, w.ssCwnd as real);
  }

  /** What an acknowledgement does to the search: below 14 segments nothing; where the window has
      come within 0.00001 of the upper end max probing starts from scratch; otherwise the lower
      half of the interval is dropped. */
  lemma AckNarrows(w: Window)
    requires w.cwnd > 0.0 && !w.isBicSs
    ensures var r := Increased(w);
            && r.ssthresh == w.ssthresh
            && (w.cwnd < 14.0 ==> r == w.(cwnd := r.cwnd))
            && (w.cwnd >= 14.0 && r.cwnd + 0.00001 < w.maxWin ==>
                  && !r.isBicSs && r.minWin == r.cwnd && r.maxWin == w.maxWin
                  && r.targetWin - r.minWin == r.maxWin - r.targetWin)
            && (w.cwnd >= 14.0 && r.cwnd + 0.00001 >= w.maxWin ==>
                  && r.isBicSs && r.ssCwnd == 1 && r.maxWin == 2147483647.0
                  && r.ssTarget as real <= r.cwnd + 1.0 < r.ssTarget as real + 1.0)
  {
  }

  // ------------------------------------------------------------------ max probing

  function Pow2(n: nat): nat { if n == 0 then 1 else 2 * Pow2(n - 1) }

  function Acks(w: Window, n: nat): (r: Window)
    requires w.isBicSs && w.cwnd >= LOW_WINDOW && w.ssCwnd >= 1
    ensures r.cwnd >= LOW_WINDOW && r.ssCwnd >= 1
  {
    if n == 0 then w
    else
      var before := Acks(w, n - 1);
      if before.isBicSs then
        ProbingRaises(before);
        Increased(before)
      else before
  }

  lemma ProbingRaises(w: Window)
    requires w.isBicSs && w.cwnd >= LOW_WINDOW && w.ssCwnd >= 1
    ensures Increased(w).cwnd > w.cwnd && Increased(w).ssCwnd >= 1
  {
    var gain := w.ssCwnd as real / w.cwnd;
    GainTimesWindow(w.cwnd, gain, w.ssCwnd as real);
    Signs(gain, w.cwnd);
  }

  /** How many of the first `n` acknowledgements of max probing reach its current target. */
  ghost function CountReached(w: Window, n: nat): nat
    requires w.isBicSs && w.cwnd >= LOW_WINDOW && w.ssCwnd >= 1
  {
    if n == 0 then 0
    else
      var before := Acks(w, n - 1);
      CountReached(w, n - 1) +
      if before.isBicSs && Increased(before).cwnd >= before.ssTarget as real then 1 else 0
  }

  /** Max probing doubles its step each time the window reaches the target, which is then set one
      new step ahead, and goes back to the search with the fourth doubling, for steps of 1, 2, 4 and
      8. */
  lemma {:induction false} ProbingDoubles(w: Window, n: nat)
    requires w.isBicSs && w.cwnd >= LOW_WINDOW && w.ssCwnd == 1
    ensures var r, k := Acks(w, n), CountReached(w, n);
            && r.ssCwnd == Pow2(k) && k <= 4 && (r.isBicSs <==> k < 4)
            && r.maxWin == w.maxWin && r.minWin == w.minWin && r.targetWin == w.targetWin && r.ssthresh == w.ssthresh
    decreases n
  {
    assert Pow2(0) == 1 && Pow2(1) == 2 && Pow2(2) == 4 && Pow2(3) == 8 && Pow2(4) == 16;
    if n > 0 {
      ProbingDoubles(w, n - 1);
      assert CountReached(w, n - 1) in {0, 1, 2, 3, 4};
    }
  }

  /** The target of max probing: it stays until it is reached. */
  lemma ProbingTarget(w: Window)
    requires w.isBicSs && w.cwnd >= LOW_WINDOW && w.ssCwnd >= 1
    ensures var r := Increased(w);
            if r.cwnd < w.ssTarget as real then r.ssTarget == w.ssTarget && r.ssCwnd == w.ssCwnd
            else
              && r.ssTarget as real <= r.cwnd + r.ssCwnd as real < r.ssTarget as real + 1.0
              && r.ssCwnd == w.ssCwnd + w.ssCwnd
  {
  }

  // ------------------------------------------------------------------ what a loss leaves

  /** Without reset, a loss at 14 segments or more leaves the share beta, remembers the window before
      it or, if that is below the upper end already remembered, the middle between it and what is
      left, and sets the target in the middle; below 14 segments it halves the window, which is also
      the new threshold. */
  lemma LossShares(o: Options, w: Window)
    requires !o.resetToInitial
    ensures var r := Decreased(o, w);
            if w.cwnd >= 14.0 then
              && r.cwnd == o.beta * w.cwnd && r.minWin == r.cwnd && r.ssthresh == w.ssthresh
              && (if w.maxWin > w.cwnd then r.maxWin - r.cwnd == w.cwnd - r.maxWin else r.maxWin == w.cwnd)
              && r.targetWin - r.minWin == r.maxWin - r.targetWin
              && r.isBicSs == w.isBicSs && r.ssCwnd == w.ssCwnd && r.ssTarget == w.ssTarget
            else
              r.cwnd + r.cwnd == w.cwnd && r == w.(cwnd := r.cwnd, ssthresh := r.cwnd)
  {
  }

  /** With reset, the window is the initial one, and the threshold half of what the loss would have
      left. */
  lemma LossResets(o: Options, w: Window)
    requires o.resetToInitial
    ensures var r, kept := Decreased(o, w), Decreased(o.(resetToInitial := false), w);
            && r.cwnd == o.initialWindow as real && r.ssthresh + r.ssthresh == kept.cwnd
            && r == kept.(cwnd := r.cwnd, ssthresh := r.ssthresh)
  {
  }

  // ------------------------------------------------------------------ the object

  class BicCwnd {
    const options: Options
    var window: Window

    /** m_options.initCwnd and initSsthresh. */
    constructor (options: Options, initCwnd: real, initSsthresh: real)
      ensures this.options == options
      ensures window == Initial(initCwnd, initSsthresh)
    {
      this.options := options;
      window := Initial(initCwnd, initSsthresh);
    }

    method IncreaseWindow()
      requires window.cwnd > 0.0
      modifies this
      ensures window == Increased(old(window))
    {
      if window.cwnd < LOW_WINDOW {
        if window.cwnd <= window.ssthresh {
          window := window.(cwnd := window.cwnd + 1.0);
        } else {
          window := window.(cwnd := window.cwnd + 1.0 / window.cwnd);
        }
      } else if !window.isBicSs {
        if window.targetWin - window.cwnd < MAX_INCREMENT as real {
          window := window.(cwnd := window.cwnd + (window.targetWin - window.cwnd) / window.cwnd);
        } else {
          window := window.(cwnd := window.cwnd + MAX_INCREMENT as real / window.cwnd);
        }
        if window.cwnd + 0.00001 < window.maxWin {
          window := window.(minWin := window.cwnd);
          window := window.(targetWin := Middle(window.maxWin, window.minWin));
        } else {
          window := window.(isBicSs := true, ssCwnd := 1);
          window := window.(ssTarget := Truncated(window.cwnd + 1.0), maxWin := MAX_INT as real);
        }
      } else {
        window := window.(cwnd := window.cwnd + window.ssCwnd as real / window.cwnd);
        if window.cwnd >= window.ssTarget as real {
          window := window.(ssCwnd := 2 * window.ssCwnd);
          window := window.(ssTarget := Truncated(window.cwnd + window.ssCwnd as real));
        }
        if window.ssCwnd >= MAX_INCREMENT {
          window := window.(isBicSs := false);
        }
      }
    }

    method DecreaseWindow()
      modifies this
      ensures window == Decreased(options, old(window))
    {
      if window.cwnd >= LOW_WINDOW {
        var prevMax := window.maxWin;
        window := window.(maxWin := window.cwnd);
        window := window.(cwnd := window.cwnd * options.beta);
        window := window.(minWin := window.cwnd);
        if prevMax > window.maxWin {
          window := window.(maxWin := Middle(window.maxWin, window.minWin));
        }
        window := window.(targetWin := Middle(window.maxWin, window.minWin));
      } else {
        window := window.(ssthresh := window.cwnd * 0.5);
        window := window.(cwnd := window.ssthresh);
      }
      if options.resetToInitial {
        window := window.(ssthresh := window.cwnd * 0.5);
        window := window.(cwnd := options.initialWindow as real);
      }
    }
  }
}
