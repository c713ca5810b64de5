/** The window policy of the AIMD pipeline: section 3.1 of RFC 5681. */
module AimdWindow {
  import opened Reals

  datatype Options = Options(initCwnd: real, aiStep: real, mdCoef: real, resetCwndToInit: bool)
  {
    ghost predicate Valid() { initCwnd >= 1.0 && aiStep >= 0.0 && mdCoef >= 0.0 }
  }

  datatype Window = Window(cwnd: real, ssthresh: real)

  function Share(a: real, n: int): real
    requires n >= 1
  {
    a / n as real
  }

  /** std::floor of a window of at least one segment is not zero. */
  function Increased(o: Options, w: Window): Window
    requires w.cwnd >= 1.0
  {
    if w.cwnd < w.ssthresh then w.(cwnd := w.cwnd + o.aiStep)
    else w.(cwnd := w.cwnd + Share(o.aiStep, w.cwnd.Floor))
  }

  function Decreased(o: Options, w: Window): Window {
    var ssthresh := if 2.0 < w.cwnd * o.mdCoef then w.cwnd * o.mdCoef else 2.0;
    Window(if o.resetCwndToInit then o.initCwnd else ssthresh, ssthresh)
  }

  // ------------------------------------------------------------------ runs

  datatype Event = Ack | Loss

  function Step(o: Options, w: Window, e: Event): Window
    requires w.cwnd >= 1.0
  {
    if e.Ack? then Increased(o, w) else Decreased(o, w)
  }

  lemma ShareIsSmall(a: real, n: int)
    requires a >= 0.0 && n >= 1
    ensures 0.0 <= Share(a, n) <= a && (a > 0.0 ==> Share(a, n) > 0.0)
  {
  }

  lemma StepKeepsOne(o: Options, w: Window, e: Event)
    requires o.Valid() && w.cwnd >= 1.0
    ensures Step(o, w, e).cwnd >= 1.0
    ensures e.Ack? ==> w.cwnd <= Step(o, w, e).cwnd <= w.cwnd + o.aiStep
  {
    if e.Ack? {
      ShareIsSmall(o.aiStep, w.cwnd.Floor);
    }
  }

  /** One acknowledgement brings a window of at least one segment to at least two. */
  lemma IncreaseReachesTwo(o: Options, w: Window)
    requires o.Valid() && o.aiStep >= 1.0 && w.cwnd >= 1.0
    ensures Increased(o, w).cwnd >= 2.0
  {
    if w.cwnd < 2.0 {
      assert w.cwnd.Floor == 1;
    } else {
      ShareIsSmall(o.aiStep, w.cwnd.Floor);
    }
  }

  ghost function Run(o: Options, w: Window, events: seq<Event>): (r: Window)
    requires o.Valid() && w.cwnd >= 1.0
    ensures r.cwnd >= 1.0
    decreases |events|
  {
    if events == [] then w
    else
      StepKeepsOne(o, w, events[0]);
      Run(o, Step(o, w, events[0]), events[1..])
  }

  lemma {:induction false} AvoidanceLasts(o: Options, w: Window, events: seq<Event>)
    requires o.Valid() && !o.resetCwndToInit && w.cwnd >= 1.0
    requires w.cwnd >= w.ssthresh >= 2.0 || Loss in events
    ensures var r := Run(o, w, events); r.cwnd >= r.ssthresh >= 2.0
    decreases |events|
  {
    if events != [] {
      StepKeepsOne(o, w, events[0]);
      AvoidanceLasts(o, Step(o, w, events[0]), events[1..]);
    }
  }

  lemma {:induction false} RunOneMore(o: Options, w: Window, events: seq<Event>, e: Event)
    requires o.Valid() && w.cwnd >= 1.0
    ensures Run(o, w, events + [e]) == Step(o, Run(o, w, events), e)
    decreases |events|
  {
    if events == [] {
      assert (events + [e])[1..] == [];
    } else {
      StepKeepsOne(o, w, events[0]);
      assert (events + [e])[1..] == events[1..] + [e];
      RunOneMore(o, Step(o, w, events[0]), events[1..], e);
    }
  }

  /** Without the reset option the first loss ends slow start for good: after any events, a
      loss, and any more events, the window is at least the threshold, which is at least two
      segments, so that every further ack is one of congestion avoidance.  Right after the loss
      the window is the threshold, and it has not grown unless it was less than two segments. */
  lemma LossEntersAvoidance(o: Options, w: Window, before: seq<Event>, after: seq<Event>)
    requires o.Valid() && !o.resetCwndToInit && w.cwnd >= 1.0
    ensures var r := Run(o, w, before + [Loss] + after); r.cwnd >= r.ssthresh >= 2.0
    ensures var b, r := Run(o, w, before), Run(o, w, before + [Loss]);
            && 2.0 <= r.cwnd == r.ssthresh && b.cwnd * o.mdCoef <= r.cwnd
            && (b.cwnd >= 2.0 && o.mdCoef <= 1.0 ==> r.cwnd <= b.cwnd)
  {
    hide Decreased;
    assert Loss in before + [Loss] + after;
    AvoidanceLasts(o, w, before + [Loss] + after);
    RunOneMore(o, w, before, Loss);
    LossShrinks(o, Run(o, w, before));
  }

  lemma LossShrinks(o: Options, w: Window)
    requires o.Valid() && !o.resetCwndToInit && w.cwnd >= 1.0
    ensures var r := Decreased(o, w);
            && 2.0 <= r.cwnd == r.ssthresh && w.cwnd * o.mdCoef <= r.cwnd
            && (w.cwnd >= 2.0 && o.mdCoef <= 1.0 ==> r.cwnd <= w.cwnd)
  {
    var shrunk := w.cwnd * o.mdCoef;
    assert Decreased(o, w).cwnd == if 2.0 < shrunk then shrunk else 2.0;
    if o.mdCoef <= 1.0 {
      SmallerProduct(w.cwnd, o.mdCoef);
      assert shrunk <= w.cwnd;
    }
  }

  lemma SmallerProduct(a: real, k: real)
    requires a >= 0.0 && k <= 1.0
    ensures a * k <= a
  {
    var rest := a * (1.0 - k);
    assert rest >= 0.0;
    assert a * k + rest == a;
  }

  // ------------------------------------------------------------------ one round of acks

  ghost function Acks(o: Options, w: Window, n: nat): (r: Window)
    requires o.Valid() && w.cwnd >= 1.0
    ensures r.cwnd >= w.cwnd && r.ssthresh == w.ssthresh
  {
    if n == 0 then w
    else
      var before := Acks(o, w, n - 1);
      StepKeepsOne(o, before, Ack);
      Increased(o, before)
  }

  lemma SmallerShare(a: real, m: int, n: int)
    requires a >= 0.0 && 1 <= m <= n
    ensures Share(a, n) <= Share(a, m)
  {
    var p := Share(a, m);
    assert p * m as real == a;
    var more := p * (n - m) as real;
    assert more >= 0.0;
    assert p * n as real == a + more;
    assert p == (a + more) / n as real == a / n as real + more / n as real;
  }

  /** Shares make up the whole, and any fewer of them do not. */
  lemma {:induction false} SharesMakeUpWhole(a: real, n: nat, k: nat)
    requires a >= 0.0 && n >= 1 && k <= n
    ensures Multiple(n, Share(a, n)) == a && (k < n && a > 0.0 ==> Multiple(k, Share(a, n)) < a)
    decreases n - k
  {
    MultipleIsProduct(n, Share(a, n));
    ShareIsSmall(a, n);
    assert n as real * Share(a, n) == a;
    if k < n {
      SharesMakeUpWhole(a, n, k + 1);
    }
  }

  lemma {:induction false} AcksAddShares(o: Options, w: Window, n: nat)
    requires o.Valid() && w.cwnd >= 1.0 && w.cwnd >= w.ssthresh
    ensures Acks(o, w, n).cwnd <= w.cwnd + Multiple(n, Share(o.aiStep, w.cwnd.Floor))
    decreases n
  {
    hide Share;
    if n > 0 {
      AcksAddShares(o, w, n - 1);
      SmallerShare(o.aiStep, w.cwnd.Floor, Acks(o, w, n - 1).cwnd.Floor);
    }
  }

  /** In congestion avoidance a full window of acks raises the window by at most aiStep. */
  lemma RoundAddsAtMostOneStep(o: Options, w: Window)
    requires o.Valid() && w.cwnd >= 1.0 && w.cwnd >= w.ssthresh
    ensures w.cwnd <= Acks(o, w, w.cwnd.Floor).cwnd <= w.cwnd + o.aiStep
  {
    hide Share;
    AcksAddShares(o, w, w.cwnd.Floor);
    SharesMakeUpWhole(o.aiStep, w.cwnd.Floor, 0);
  }

  lemma {:induction false} AcksFromInteger(o: Options, w: Window, n: nat, k: nat)
    requires o.Valid() && w.cwnd == n as real && n >= 1 && w.cwnd >= w.ssthresh && 0.0 < o.aiStep <= 1.0 && k <= n
    ensures Acks(o, w, k).cwnd == n as real + Multiple(k, Share(o.aiStep, n))
    decreases k
  {
    hide Share;
    if k > 0 {
      AcksFromInteger(o, w, n, k - 1);
      SharesMakeUpWhole(o.aiStep, n, k - 1);
      assert Acks(o, w, k - 1).cwnd.Floor == n;
    }
  }

  /** With a step of at most one, exactly `n` acks take a window of `n` segments up by aiStep;
      with a step of one, to `n + 1`. */
  lemma RoundFromInteger(o: Options, w: Window, n: nat)
    requires o.Valid() && w.cwnd == n as real && n >= 1 && w.cwnd >= w.ssthresh && 0.0 < o.aiStep <= 1.0
    ensures Acks(o, w, n).cwnd == n as real + o.aiStep
  {
    hide Share;
    AcksFromInteger(o, w, n, n);
    SharesMakeUpWhole(o.aiStep, n, n);
  }

  // ------------------------------------------------------------------ slow start and reset

  /** An acknowledgement adds aiStep below the threshold; at or above it, as many equal gains as
      the window has whole segments would add aiStep. */
  lemma AckGains(o: Options, w: Window)
    requires o.Valid() && w.cwnd >= 1.0
    ensures var r := Increased(o, w); var gain := r.cwnd - w.cwnd;
            && r.ssthresh == w.ssthresh
            && (if w.cwnd < w.ssthresh then gain == o.aiStep else gain * w.cwnd.Floor as real == o.aiStep)
  {
  }

  /** In slow start `n` acknowledgements add `n` times aiStep, while that stays below the threshold. */
  lemma {:induction false} SlowStartAcks(o: Options, w: Window, n: nat)
    requires o.Valid() && w.cwnd >= 1.0
    requires n > 0 ==> w.cwnd + Multiple(n - 1, o.aiStep) < w.ssthresh
    ensures Acks(o, w, n).cwnd == w.cwnd + Multiple(n, o.aiStep)
    decreases n
  {
    if n > 1 {
      assert Multiple(n - 1, o.aiStep) == Multiple(n - 2, o.aiStep) + o.aiStep;
    }
    if n > 0 {
      SlowStartAcks(o, w, n - 1);
    }
  }

  /** After any events and a loss the threshold is the share mdCoef of the window before it, or two
      segments if that is more; and the window is the threshold or, with the reset option, the
      initial one, from which slow start begins again when that is below the threshold. */
  lemma LossShares(o: Options, w: Window, events: seq<Event>)
    requires o.Valid() && w.cwnd >= 1.0
    ensures var before, r := Run(o, w, events), Run(o, w, events + [Loss]);
            && r.ssthresh >= 2.0 && r.ssthresh >= o.mdCoef * before.cwnd
            && (r.ssthresh == 2.0 || r.ssthresh == o.mdCoef * before.cwnd)
            && r.cwnd == (if o.resetCwndToInit then o.initCwnd else r.ssthresh)
            && (o.resetCwndToInit && o.initCwnd < r.ssthresh ==> Increased(o, r).cwnd == o.initCwnd + o.aiStep)
  {
    hide Decreased, Increased;
    RunOneMore(o, w, events, Loss);
    OneLossShares(o, Run(o, w, events));
  }

  lemma OneLossShares(o: Options, w: Window)
    requires o.Valid() && w.cwnd >= 1.0
    ensures var r := Decreased(o, w);
            && r.ssthresh >= 2.0 && r.ssthresh >= o.mdCoef * w.cwnd
            && (r.ssthresh == 2.0 || r.ssthresh == o.mdCoef * w.cwnd)
            && r.cwnd == (if o.resetCwndToInit then o.initCwnd else r.ssthresh) && r.cwnd >= 1.0
            && (o.resetCwndToInit && o.initCwnd < r.ssthresh ==> Increased(o, r).cwnd == o.initCwnd + o.aiStep)
  {
    var share := o.mdCoef * w.cwnd;
    assert share == w.cwnd * o.mdCoef;
    assert Decreased(o, w).ssthresh == if 2.0 < share then share else 2.0;
  }

  // ------------------------------------------------------------------ the object

  class AimdCwnd {
    const options: Options
    var cwnd: real
    var ssthresh: real

    constructor (options: Options, initSsthresh: real)
      ensures this.options == options && cwnd == options.initCwnd && ssthresh == initSsthresh
    {
      this.options, cwnd, ssthresh := options, options.initCwnd, initSsthresh;
    }

    method IncreaseWindow()
      requires cwnd >= 1.0
      modifies this`cwnd
      ensures Window(cwnd, ssthresh) == Increased(options, old(Window(cwnd, ssthresh)))
    {
      if cwnd < ssthresh {
        cwnd := cwnd + options.aiStep;
      } else {
        cwnd := cwnd + Share(options.aiStep, cwnd.Floor);
      }
    }

    method DecreaseWindow()
      modifies this
      ensures Window(cwnd, ssthresh) == Decreased(options, old(Window(cwnd, ssthresh)))
    {
      ssthresh := if 2.0 < cwnd * options.mdCoef then cwnd * options.mdCoef else 2.0;
      cwnd := if options.resetCwndToInit then options.initCwnd else ssthresh;
    }
  }
}
