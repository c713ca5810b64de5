/** The three window policies of the adaptive pipelines, behind one interface: the engine asks
    for a larger window after Data and for a smaller one after a loss. */
module WindowPolicy {
  import opened Reals
  import C = CubicWindow
  import A = AimdWindow
  import B = BicWindow

  datatype Policy =
    | Cubic(cubic: C.Options)
    | Aimd(aimd: A.Options, initSsthresh: real)
    | Bic(bic: B.Options, initCwnd: real, initSsthresh: real)
  {
    ghost predicate Valid() {
      match this
      case Cubic(o) => o.Valid()
      case Aimd(o, _) => o.Valid()
      case Bic(o, initCwnd, _) => o.Valid() && initCwnd > 0.0
    }
  }

  datatype Window = CubicW(cubic: C.Window) | AimdW(aimd: A.Window) | BicW(bic: B.Window)
  {
    function Cwnd(): real {
      match this
      case CubicW(w) => w.cwnd
      case AimdW(w) => w.cwnd
      case BicW(w) => w.cwnd
    }
  }

  /** Options of an adaptive pipeline that reach its engine. */
  datatype Options = Options(policy: Policy, disableCwa: bool, maxRetries: int)
  {
    ghost predicate Valid() { policy.Valid() }

    /** Only the CUBIC pipeline asks whether a segment is still tracked when its Data arrives. */
    predicate Guarded() { policy.Cubic? }
  }

  /** The window belongs to the policy and keeps its updates defined. */
  ghost predicate Fits(o: Options, w: Window) {
    match o.policy
    case Cubic(_) => w.CubicW? && w.cubic.cwnd > 0.0
    case Aimd(_, _) => w.AimdW? && w.aimd.cwnd >= 1.0
    case Bic(_, _, _) => w.BicW? && B.Positive(w.bic)
  }

  function InitialWindow(o: Options): (w: Window)
    requires o.Valid()
    ensures Fits(o, w)
  {
    match o.policy
    case Cubic(c) => CubicW(C.Window(c.initCwnd, c.initSsthresh, 0.0))
    case Aimd(a, initSsthresh) => AimdW(A.Window(a.initCwnd, initSsthresh))
    case Bic(_, initCwnd, initSsthresh) => BicW(B.Initial(initCwnd, initSsthresh))
  }

  function IncreaseWindow(o: Options, w: Window, g: C.Growth): (r: Window)
    requires o.Valid() && Fits(o, w)
    ensures Fits(o, r)
  {
    match o.policy
    case Cubic(c) => CubicW(C.IncreaseWindow(c, w.cubic, g))
    case Aimd(a, _) =>
      A.StepKeepsOne(a, w.aimd, A.Ack);
      AimdW(A.Increased(a, w.aimd))
    case Bic(_, _, _) =>
      B.IncreasedStaysPositive(w.bic);
      BicW(B.Increased(w.bic))
  }

  function DecreaseWindow(o: Options, w: Window): (r: Window)
    requires o.Valid() && Fits(o, w)
    ensures Fits(o, r)
  {
    match o.policy
    case Cubic(c) => CubicW(C.DecreaseWindow(c, w.cubic))
    case Aimd(a, _) =>
      A.StepKeepsOne(a, w.aimd, A.Loss);
      AimdW(A.Decreased(a, w.aimd))
    case Bic(b, _, _) =>
      B.DecreasedStaysPositive(b, w.bic);
      BicW(B.Decreased(b, w.bic))
  }

  // ------------------------------------------------------------------ at least one segment

  /** Option ranges under which the window never drops below one segment. */
  ghost predicate KeepsOneSegment(o: Options) {
    && o.Valid() && !o.disableCwa
    && match o.policy
       case Cubic(c) => c.initCwnd >= 1.0 && c.initSsthresh >= 2.0 && c.aiStep >= 1.0 && c.cubicBeta <= 0.5
       case Aimd(a, _) => a.aiStep >= 1.0
       case Bic(b, initCwnd, _) => initCwnd >= 1.0 && b.beta >= 0.1 && (b.resetToInitial ==> b.initialWindow >= 1)
  }

  /** At least one segment, and for CUBIC a threshold that one acknowledgement reaches. */
  ghost predicate Wide(o: Options, w: Window) {
    Fits(o, w) && w.Cwnd() >= 1.0 && (w.CubicW? ==> w.cubic.ssthresh >= 2.0)
  }

  lemma InitialIsWide(o: Options)
    requires KeepsOneSegment(o)
    ensures Wide(o, InitialWindow(o))
  {
  }

  /** One acknowledgement brings a window of at least one segment to at least two. */
  lemma IncreaseReachesTwo(o: Options, w: Window, g: C.Growth)
    requires KeepsOneSegment(o) && Wide(o, w)
    ensures Wide(o, IncreaseWindow(o, w, g)) && IncreaseWindow(o, w, g).Cwnd() >= 2.0
  {
    match o.policy
    case Cubic(c) => C.IncreaseReachesTwo(c, w.cubic, g);
    case Aimd(a, _) => A.IncreaseReachesTwo(a, w.aimd);
    case Bic(_, _, _) => B.IncreaseReachesTwo(w.bic);
  }

  /** One loss event leaves at least one segment of a window of at least two. */
  lemma DecreaseLeavesOne(o: Options, w: Window)
    requires KeepsOneSegment(o) && Wide(o, w) && w.Cwnd() >= 2.0
    ensures Wide(o, DecreaseWindow(o, w))
  {
    match o.policy
    case Cubic(c) => C.DecreaseLeavesOne(c, w.cubic);
    case Aimd(_, _) =>
    case Bic(b, _, _) => B.DecreaseLeavesOne(b, w.bic);
  }

  // ------------------------------------------------------------------ over a whole run

  /** What a window feels: Data, with what the clocks contribute then, or a loss event. */
  type Signal = C.Event

  function After(o: Options, w: Window, signals: seq<Signal>): (r: Window)
    requires o.Valid() && Fits(o, w)
    ensures Fits(o, r)
    decreases |signals|
  {
    if signals == [] then w
    else
      match signals[0]
      case Ack(g) => After(o, IncreaseWindow(o, w, g), signals[1..])
      case Loss => After(o, DecreaseWindow(o, w), signals[1..])
  }

  function Losses(signals: seq<Signal>): (n: nat)
    ensures n <= |signals|
  {
    if signals == [] then 0 else (if signals[0].Loss? then 1 else 0) + Losses(signals[1..])
  }

  lemma OneSignal(o: Options, w: Window, signal: Signal)
    requires o.Valid() && Fits(o, w)
    ensures After(o, w, []) == w && Losses([]) == 0
    ensures After(o, w, [signal]) ==
            match signal
            case Ack(g) => IncreaseWindow(o, w, g)
            case Loss => DecreaseWindow(o, w)
    ensures Losses([signal]) == if signal.Loss? then 1 else 0
  {
    assert [signal][1..] == [];
  }

  lemma {:induction false} SignalsInTurn(o: Options, w: Window, a: seq<Signal>, b: seq<Signal>)
    requires o.Valid() && Fits(o, w)
    ensures After(o, w, a + b) == After(o, After(o, w, a), b) && Losses(a + b) == Losses(a) + Losses(b)
    decreases |a|
  {
    hide IncreaseWindow, DecreaseWindow;
    if a == [] {
      assert a + b == b;
    } else {
      assert (a + b)[0] == a[0] && (a + b)[1..] == a[1..] + b;
      SignalsInTurn(o, match a[0] case Ack(g) => IncreaseWindow(o, w, g) case Loss => DecreaseWindow(o, w), a[1..], b);
    }
  }

  /** For CUBIC this is the run of its own window. */
  lemma {:induction false} AfterIsCubicRun(o: Options, w: C.Window, signals: seq<Signal>)
    requires o.Valid() && o.policy.Cubic? && w.cwnd > 0.0
    ensures After(o, CubicW(w), signals) == CubicW(C.Run(o.policy.cubic, w, signals))
    decreases |signals|
  {
    if signals != [] {
      AfterIsCubicRun(o, C.Step(o.policy.cubic, w, signals[0]), signals[1..]);
    }
  }

  /** AIMD asks no clock. */
  function Plain(signals: seq<Signal>): seq<A.Event> {
    if signals == [] then [] else [if signals[0].Ack? then A.Ack else A.Loss] + Plain(signals[1..])
  }

  lemma {:induction false} AfterIsAimdRun(o: Options, w: A.Window, signals: seq<Signal>)
    requires o.Valid() && o.policy.Aimd? && w.cwnd >= 1.0
    ensures After(o, AimdW(w), signals) == AimdW(A.Run(o.policy.aimd, w, Plain(signals)))
    decreases |signals|
  {
    if signals != [] {
      var e := if signals[0].Ack? then A.Ack else A.Loss;
      A.StepKeepsOne(o.policy.aimd, w, e);
      assert Plain(signals)[0] == e && Plain(signals)[1..] == Plain(signals[1..]);
      AfterIsAimdRun(o, A.Step(o.policy.aimd, w, e), signals[1..]);
    }
  }

  // ------------------------------------------------------------------ the first acknowledgements

  /** What an acknowledgement adds in slow start, and where that ends. */
  function SlowStartStep(o: Options): real
    requires !o.policy.Bic?
  {
    if o.policy.Cubic? then o.policy.cubic.aiStep else o.policy.aimd.aiStep
  }

  function Threshold(w: Window): real {
    match w
    case CubicW(c) => c.ssthresh
    case AimdW(a) => a.ssthresh
    case BicW(b) => b.ssthresh
  }

  lemma {:induction false} SlowStartGrows(o: Options, w: Window, acks: seq<Signal>)
    requires o.Valid() && Fits(o, w) && !o.policy.Bic? && forall i :: 0 <= i < |acks| ==> acks[i].Ack?
    requires acks != [] ==> w.Cwnd() + Multiple(|acks| - 1, SlowStartStep(o)) < Threshold(w)
    ensures After(o, w, acks).Cwnd() == w.Cwnd() + Multiple(|acks|, SlowStartStep(o))
    decreases |acks|
  {
    if acks != [] {
      var step := SlowStartStep(o);
      MultipleIsProduct(|acks| - 1, step);
      Grows(|acks| - 1, step);
      var r := IncreaseWindow(o, w, acks[0].growth);
      assert r.Cwnd() == w.Cwnd() + step && Threshold(r) == Threshold(w);
      SlowStartGrows(o, r, acks[1..]);
    }
  }

  lemma Grows(n: nat, x: real)
    requires x >= 0.0
    ensures n as real * x >= 0.0
  {
  }

  /** CUBIC and AIMD start with slow start from the initial window: each acknowledgement adds one step
      until the initial threshold is reached. */
  lemma StartsSlowly(o: Options, acks: seq<Signal>)
    requires o.Valid() && !o.policy.Bic? && acks != [] && forall i :: 0 <= i < |acks| ==> acks[i].Ack?
    ensures var (first, threshold) :=
              if o.policy.Cubic? then (o.policy.cubic.initCwnd, o.policy.cubic.initSsthresh)
              else (o.policy.aimd.initCwnd, o.policy.initSsthresh);
            first + Multiple(|acks| - 1, SlowStartStep(o)) < threshold ==>
              After(o, InitialWindow(o), acks).Cwnd() == first + Multiple(|acks|, SlowStartStep(o))
  {
    hide After, Multiple;
    var w := InitialWindow(o);
    if w.Cwnd() + Multiple(|acks| - 1, SlowStartStep(o)) < Threshold(w) {
      SlowStartGrows(o, w, acks);
    }
  }
}
