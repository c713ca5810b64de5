/** The congestion window of the CUBIC pipeline: slow start, the CUBIC update and the
    multiplicative decrease.  `real` stands for `double`; the cubic target and the
    TCP-friendly estimate depend on clocks and on a cube root, so they are inputs. */
module CubicWindow {
  import opened Reals

  /** Options of the pipeline that reach its window. */
  datatype Options = Options(
    initCwnd: real,
    initSsthresh: real,
    aiStep: real,
    cubicBeta: real,
    cubicFastConvergence: bool,
    cubicTcpFriendliness: bool)
  {
    /** Ranges under which the window stays positive, so that no update divides by zero. */
    ghost predicate Valid() {
      initCwnd > 0.0 && aiStep > 0.0 && 0.0 <= cubicBeta < 1.0
    }
  }

  datatype Window = Window(cwnd: real, ssthresh: real, lastMaxCwnd: real)

  /** What the clocks contribute to one CUBIC update. */
  datatype Growth = Growth(target: real, tcpCwnd: real)

  function CubicUpdate(o: Options, w: Window, g: Growth): (r: Window)
    requires w.cwnd > 0.0
    ensures r.cwnd > w.cwnd && r.ssthresh == w.ssthresh && r.lastMaxCwnd == w.lastMaxCwnd
  {
    var towardsTarget :=
      if g.target > w.cwnd then w.cwnd + (g.target - w.cwnd) / w.cwnd
      else w.cwnd + 0.01 / w.cwnd;
    if o.cubicTcpFriendliness && g.tcpCwnd > w.cwnd && g.tcpCwnd > g.target then
      w.(cwnd := w.cwnd + (g.tcpCwnd - w.cwnd) / w.cwnd)
    else
      w.(cwnd := towardsTarget)
  }

  function IncreaseWindow(o: Options, w: Window, g: Growth): (r: Window)
    requires o.Valid() && w.cwnd > 0.0
    ensures r.cwnd > w.cwnd && r.ssthresh == w.ssthresh
  {
    if w.cwnd < w.ssthresh then w.(cwnd := w.cwnd + o.aiStep)
    else CubicUpdate(o, w, g)
  }

  /** A factor of at most one shrinks, and leaves something. */
  lemma Shrinks(x: real, f: real)
    requires x > 0.0 && 0.0 < f <= 1.0
    ensures 0.0 < x * f <= x
  {
    assert x * f <= x * 1.0;
  }

  /** What a loss leaves of the window. */
  function Reduced(o: Options, w: Window): (cwnd: real)
    requires o.Valid() && w.cwnd > 0.0
    ensures 0.0 < cwnd <= w.cwnd
  {
    Shrinks(w.cwnd, 1.0 - o.cubicBeta);
    w.cwnd * (1.0 - o.cubicBeta)
  }

  function DecreaseWindow(o: Options, w: Window): (r: Window)
    requires o.Valid() && w.cwnd > 0.0
    ensures 0.0 < r.cwnd <= w.cwnd && r.ssthresh >= 2.0 && r.ssthresh >= r.cwnd
  {
    var lastMax :=
      if w.cwnd < w.lastMaxCwnd && o.cubicFastConvergence
      then w.cwnd * (2.0 - o.cubicBeta) / 2.0
      else w.cwnd;
    var reduced := Reduced(o, w);
    Window(reduced, if reduced < 2.0 then 2.0 else reduced, lastMax)
  }

  /** One acknowledgement brings a window of at least one segment to at least two. */
  lemma IncreaseReachesTwo(o: Options, w: Window, g: Growth)
    requires o.Valid() && o.aiStep >= 1.0 && w.cwnd >= 1.0 && w.ssthresh >= 2.0
    ensures IncreaseWindow(o, w, g).cwnd >= 2.0
  {
  }

  /** One loss event leaves at least one segment of a window of at least two. */
  lemma DecreaseLeavesOne(o: Options, w: Window)
    requires o.Valid() && o.cubicBeta <= 0.5 && w.cwnd >= 2.0
    ensures DecreaseWindow(o, w).cwnd >= 1.0
  {
    assert w.cwnd * (1.0 - o.cubicBeta) >= 2.0 * 0.5 by {
      assert w.cwnd * (1.0 - o.cubicBeta) >= 2.0 * (1.0 - o.cubicBeta);
    }
  }

  // ------------------------------------------------------------------ one acknowledgement

  /** What the CUBIC update aims at: the cubic target, or the window that TCP would have where
      that is larger and TCP friendliness is wanted. */
  function Aim(o: Options, g: Growth): real {
    if o.cubicTcpFriendliness && g.tcpCwnd > g.target then g.tcpCwnd else g.target
  }

  lemma GainTimesWindow(x: real, gain: real, total: real)
    requires x > 0.0 && gain == total / x
    ensures gain * x == total
  {
  }

  /** Below the threshold an acknowledgement adds aiStep.  At or above it, a window's worth of
      equal gains would take the window exactly to the aim, or, from the aim on, up by 0.01; from
      one segment on no acknowledgement passes the aim. */
  lemma AckGains(o: Options, w: Window, g: Growth)
    requires o.Valid() && w.cwnd > 0.0
    ensures var r := IncreaseWindow(o, w, g); var gain := r.cwnd - w.cwnd;
            && r.ssthresh == w.ssthresh && r.lastMaxCwnd == w.lastMaxCwnd
            && (if w.cwnd < w.ssthresh then gain == o.aiStep
                else gain * w.cwnd == if Aim(o, g) > w.cwnd then Aim(o, g) - w.cwnd else 0.01)
            && (w.ssthresh <= w.cwnd < Aim(o, g) && w.cwnd >= 1.0 ==> w.cwnd < r.cwnd <= Aim(o, g))
  {
    var gain := IncreaseWindow(o, w, g).cwnd - w.cwnd;
    if w.cwnd >= w.ssthresh {
      GainTimesWindow(w.cwnd, (g.target - w.cwnd) / w.cwnd, g.target - w.cwnd);
      GainTimesWindow(w.cwnd, (g.tcpCwnd - w.cwnd) / w.cwnd, g.tcpCwnd - w.cwnd);
      GainTimesWindow(w.cwnd, 0.01 / w.cwnd, 0.01);
      if Aim(o, g) > w.cwnd >= 1.0 {
        NotBeyond(gain, w.cwnd, Aim(o, g) - w.cwnd);
      }
    }
  }

  lemma NotBeyond(gain: real, x: real, total: real)
    requires x >= 1.0 && gain * x == total > 0.0
    ensures 0.0 < gain <= total
  {
    if gain <= 0.0 {
      Signs(gain, x);
      assert false;
    }
    Shrinks(total, 1.0);
    assert gain * x >= gain * 1.0;
  }

  lemma Signs(gain: real, x: real)
    requires gain <= 0.0 && x >= 1.0
    ensures gain * x <= 0.0
  {
  }

  // ------------------------------------------------------------------ runs

  datatype Event = Ack(growth: Growth) | Loss

  function Step(o: Options, w: Window, e: Event): (r: Window)
    requires o.Valid() && w.cwnd > 0.0
    ensures r.cwnd > 0.0
  {
    match e
    case Ack(g) => IncreaseWindow(o, w, g)
    case Loss => DecreaseWindow(o, w)
  }

  function Run(o: Options, w: Window, events: seq<Event>): (r: Window)
    requires o.Valid() && w.cwnd > 0.0
    ensures r.cwnd > 0.0
    decreases |events|
  {
    if events == [] then w else Run(o, Step(o, w, events[0]), events[1..])
  }

  /** A loss leaves the share `1 - cubicBeta` of the window, which is also the new threshold unless
      that would be below two; and the window before it is remembered, or with fast convergence,
      when that is already lower than the one remembered, the middle between it and what is left. */
  lemma LossShares(o: Options, w: Window)
    requires o.Valid() && w.cwnd > 0.0
    ensures var r := DecreaseWindow(o, w);
            && w.cwnd - r.cwnd == o.cubicBeta * w.cwnd
            && (if r.cwnd >= 2.0 then r.ssthresh == r.cwnd else r.ssthresh == 2.0)
            && (if o.cubicFastConvergence && w.lastMaxCwnd > w.cwnd
                then r.lastMaxCwnd - r.cwnd == w.cwnd - r.lastMaxCwnd
                else r.lastMaxCwnd == w.cwnd)
  {
    var share := o.cubicBeta * w.cwnd;
    SplitShare(w.cwnd, o.cubicBeta, share);
  }

  lemma SplitShare(x: real, beta: real, share: real)
    requires share == beta * x
    ensures x * (1.0 - beta) == x - share && x * (2.0 - beta) == 2.0 * x - share
  {
  }

  lemma {:induction false} AcksKeepAbove(o: Options, w: Window, acks: seq<Event>)
    requires o.Valid() && w.cwnd > 0.0 && forall i :: 0 <= i < |acks| ==> acks[i].Ack?
    ensures var r := Run(o, w, acks); r.ssthresh == w.ssthresh && r.lastMaxCwnd == w.lastMaxCwnd && r.cwnd >= w.cwnd
    decreases |acks|
  {
    hide IncreaseWindow;
    if acks != [] {
      AckGains(o, w, acks[0].growth);
      AcksKeepAbove(o, Step(o, w, acks[0]), acks[1..]);
    }
  }

  lemma {:induction false} RunInTurn(o: Options, w: Window, a: seq<Event>, b: seq<Event>)
    requires o.Valid() && w.cwnd > 0.0
    ensures Run(o, w, a + b) == Run(o, Run(o, w, a), b)
    decreases |a|
  {
    if a == [] {
      assert a + b == b;
    } else {
      assert (a + b)[1..] == a[1..] + b;
      RunInTurn(o, Step(o, w, a[0]), a[1..], b);
    }
  }

  /** After any events, a loss that leaves at least two segments ends slow start until the next
      loss: for all acknowledgements that follow the window is at least the threshold, which is
      the window after the loss, and the next one makes a CUBIC update. */
  lemma LossEntersAvoidance(o: Options, w: Window, before: seq<Event>, acks: seq<Event>, g: Growth)
    requires o.Valid() && w.cwnd > 0.0 && forall i :: 0 <= i < |acks| ==> acks[i].Ack?
    requires Run(o, w, before + [Loss]).cwnd >= 2.0
    ensures var after := Run(o, w, before + [Loss]); var r := Run(o, w, before + [Loss] + acks);
            && r.ssthresh == after.ssthresh == after.cwnd <= r.cwnd
            && IncreaseWindow(o, r, g) == CubicUpdate(o, r, g)
  {
    hide IncreaseWindow, DecreaseWindow;
    var after := Run(o, w, before + [Loss]);
    RunInTurn(o, w, before, [Loss]);
    OneLoss(o, Run(o, w, before));
    RunInTurn(o, w, before + [Loss], acks);
    AcksKeepAbove(o, after, acks);
    AvoidanceIsCubic(o, Run(o, after, acks), g);
  }

  lemma OneLoss(o: Options, w: Window)
    requires o.Valid() && w.cwnd > 0.0
    ensures Run(o, w, [Loss]) == DecreaseWindow(o, w)
    ensures DecreaseWindow(o, w).cwnd >= 2.0 ==> DecreaseWindow(o, w).ssthresh == DecreaseWindow(o, w).cwnd
  {
    assert [Loss][1..] == [];
  }

  lemma AvoidanceIsCubic(o: Options, w: Window, g: Growth)
    requires o.Valid() && w.cwnd > 0.0 && w.cwnd >= w.ssthresh
    ensures IncreaseWindow(o, w, g) == CubicUpdate(o, w, g)
  {
  }

  /** In slow start each acknowledgement adds aiStep: `n` of them add `n` times as much, while that
      stays below the threshold. */
  lemma {:induction false} SlowStartAcks(o: Options, w: Window, acks: seq<Event>)
    requires o.Valid() && w.cwnd > 0.0 && forall i :: 0 <= i < |acks| ==> acks[i].Ack?
    requires acks != [] ==> w.cwnd + Multiple(|acks| - 1, o.aiStep) < w.ssthresh
    ensures Run(o, w, acks).cwnd == w.cwnd + Multiple(|acks|, o.aiStep)
    decreases |acks|
  {
    if acks != [] {
      MultipleGrows(|acks| - 1, o.aiStep);
      var w1 := Step(o, w, acks[0]);
      assert w1 == w.(cwnd := w.cwnd + o.aiStep);
      SlowStartAcks(o, w1, acks[1..]);
    }
  }

  lemma {:induction false} MultipleGrows(n: nat, x: real)
    requires x > 0.0
    ensures Multiple(n, x) >= 0.0
  {
    if n > 0 {
      MultipleGrows(n - 1, x);
    }
  }
}
