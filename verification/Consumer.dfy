/** The consumer: it buffers segments as they arrive and writes them out in order. */
module Consumer {
  import opened Bytes
  import opened Counting

  datatype State = State(nextToPrint: nat, buffered: map<nat, Octets>, output: Octets)

  /** Whether the smallest buffered segment is the next one to print. */
  predicate Ready(c: State) {
    c.nextToPrint in c.buffered && forall k :: k in c.buffered ==> c.nextToPrint <= k
  }

  function WriteInOrder(c: State): State
    decreases |c.buffered|
  {
    if !Ready(c) then c
    else
      SmallerBuffer(c.buffered, c.nextToPrint);
      WriteInOrder(State(c.nextToPrint + 1, c.buffered - {c.nextToPrint}, c.output + c.buffered[c.nextToPrint]))
  }

  lemma SmallerBuffer(m: map<nat, Octets>, k: nat)
    requires k in m
    ensures |m - {k}| < |m|
  {
    assert (m - {k}).Keys == m.Keys - {k};
    assert |m.Keys - {k}| < |m.Keys|;
    assert |(m - {k}).Keys| == |m - {k}|;
  }

  /** One segment arrives. */
  function OnData(c: State, segNo: nat, content: Octets): State {
    WriteInOrder(c.(buffered := c.buffered[segNo := content]))
  }

  const FRESH := State(0, map[], [])

  ghost predicate WithinPieces(arrivals: seq<nat>, pieces: seq<Octets>) {
    forall i :: 0 <= i < |arrivals| ==> arrivals[i] < |pieces|
  }

  /** Segments of `pieces` arrive one after the other. */
  ghost function Receive(c: State, arrivals: seq<nat>, pieces: seq<Octets>): State
    requires WithinPieces(arrivals, pieces)
    decreases |arrivals|
  {
    if arrivals == [] then c
    else Receive(OnData(c, arrivals[0], pieces[arrivals[0]]), arrivals[1..], pieces)
  }

  // ------------------------------------------------------------------ in-order output

  /** The output is the pieces before `nextToPrint`, all of which have arrived; those that
      have arrived beyond it wait in the buffer. */
  ghost predicate InOrder(c: State, seen: set<nat>, pieces: seq<Octets>) {
    && c.nextToPrint <= |pieces|
    && c.output == Concat(pieces[..c.nextToPrint])
    && (forall k: nat :: k < c.nextToPrint ==> k in seen)
    && (forall k: nat :: k in c.buffered <==> k in seen && k >= c.nextToPrint)
    && (forall k :: k in c.buffered ==> k < |pieces| && c.buffered[k] == pieces[k])
  }

  lemma {:induction false} WriteKeepsOrder(c: State, seen: set<nat>, pieces: seq<Octets>)
    requires InOrder(c, seen, pieces)
    ensures var r := WriteInOrder(c); InOrder(r, seen, pieces) && r.nextToPrint !in seen
    decreases |c.buffered|
  {
    if Ready(c) {
      var n := c.nextToPrint;
      SmallerBuffer(c.buffered, n);
      assert pieces[..n + 1] == pieces[..n] + [pieces[n]];
      ConcatOne(pieces[..n], pieces[n]);
      WriteKeepsOrder(State(n + 1, c.buffered - {n}, c.output + c.buffered[n]), seen, pieces);
    }
  }

  /** No segment arrives again after it has been printed. */
  ghost predicate Timely(c: State, arrivals: seq<nat>, pieces: seq<Octets>)
    requires WithinPieces(arrivals, pieces)
    decreases |arrivals|
  {
    arrivals == [] ||
    (arrivals[0] >= c.nextToPrint && Timely(OnData(c, arrivals[0], pieces[arrivals[0]]), arrivals[1..], pieces))
  }

  lemma {:induction false} TimelyKeepsOrder(c: State, seen: set<nat>, arrivals: seq<nat>, pieces: seq<Octets>)
    requires InOrder(c, seen, pieces) && c.nextToPrint !in seen
    requires WithinPieces(arrivals, pieces)
    requires Timely(c, arrivals, pieces)
    ensures var r := Receive(c, arrivals, pieces); var all := seen + set k | k in arrivals;
            InOrder(r, all, pieces) && r.nextToPrint !in all
    decreases |arrivals|
  {
    var all := seen + set k | k in arrivals;
    if arrivals == [] {
      assert all == seen;
    } else {
      var k := arrivals[0];
      var c1 := c.(buffered := c.buffered[k := pieces[k]]);
      assert InOrder(c1, seen + {k}, pieces);
      WriteKeepsOrder(c1, seen + {k}, pieces);
      TimelyKeepsOrder(WriteInOrder(c1), seen + {k}, arrivals[1..], pieces);
      assert arrivals == [k] + arrivals[1..];
      assert all == seen + {k} + set j | j in arrivals[1..];
    }
  }

  /** Distinct segments are timely. */
  lemma {:induction false} DistinctIsTimely(c: State, seen: set<nat>, arrivals: seq<nat>, pieces: seq<Octets>)
    requires InOrder(c, seen, pieces) && c.nextToPrint !in seen
    requires Distinct(arrivals) && WithinPieces(arrivals, pieces)
    requires forall i :: 0 <= i < |arrivals| ==> arrivals[i] !in seen
    ensures Timely(c, arrivals, pieces)
    decreases |arrivals|
  {
    if arrivals != [] {
      var k := arrivals[0];
      var c1 := c.(buffered := c.buffered[k := pieces[k]]);
      assert InOrder(c1, seen + {k}, pieces);
      WriteKeepsOrder(c1, seen + {k}, pieces);
      assert forall i :: 0 <= i < |arrivals| - 1 ==> arrivals[1..][i] == arrivals[i + 1] != k;
      DistinctIsTimely(WriteInOrder(c1), seen + {k}, arrivals[1..], pieces);
    }
  }

  /** As long as no segment comes again after it was printed, the output is the pieces up to
      the first one still missing. */
  lemma OutputIsInOrder(arrivals: seq<nat>, pieces: seq<Octets>)
    requires WithinPieces(arrivals, pieces)
    requires Timely(FRESH, arrivals, pieces)
    ensures var r := Receive(FRESH, arrivals, pieces);
            && r.nextToPrint <= |pieces| && r.output == Concat(pieces[..r.nextToPrint])
            && r.nextToPrint !in arrivals && forall k: nat :: k < r.nextToPrint ==> k in arrivals
  {
    TimelyKeepsOrder(FRESH, {}, arrivals, pieces);
    var all := {} + set k | k in arrivals;
    assert forall k :: k in all <==> k in arrivals;
  }

  /** A segment that comes again after it was printed blocks the consumer for good: the
      smallest buffered segment is then never the next one. */
  lemma {:induction false} LateDuplicateBlocks(c: State, late: nat, arrivals: seq<nat>, pieces: seq<Octets>)
    requires late in c.buffered && late < c.nextToPrint
    requires WithinPieces(arrivals, pieces)
    ensures var r := Receive(c, arrivals, pieces);
            r.output == c.output && r.nextToPrint == c.nextToPrint && late in r.buffered
    decreases |arrivals|
  {
    if arrivals != [] {
      var c1 := c.(buffered := c.buffered[arrivals[0] := pieces[arrivals[0]]]);
      assert late in c1.buffered && !Ready(c1);
      LateDuplicateBlocks(c1, late, arrivals[1..], pieces);
    }
  }

  /** Something buffered will never be printed, and holds up all that follows. */
  ghost predicate Blocked(c: State) { exists k :: k in c.buffered && k < c.nextToPrint }

  lemma {:induction false} LateMeansBlocked(c: State, seen: set<nat>, arrivals: seq<nat>, pieces: seq<Octets>)
    requires InOrder(c, seen, pieces) && c.nextToPrint !in seen && WithinPieces(arrivals, pieces)
    requires !Timely(c, arrivals, pieces)
    ensures Blocked(Receive(c, arrivals, pieces))
    decreases |arrivals|
  {
    var k := arrivals[0];
    var c1 := c.(buffered := c.buffered[k := pieces[k]]);
    if k < c.nextToPrint {
      assert k in c1.buffered && !Ready(c1);
      LateDuplicateBlocks(c1, k, arrivals[1..], pieces);
    } else {
      assert InOrder(c1, seen + {k}, pieces);
      WriteKeepsOrder(c1, seen + {k}, pieces);
      LateMeansBlocked(WriteInOrder(c1), seen + {k}, arrivals[1..], pieces);
    }
  }

  /** The consumer is blocked exactly when some segment came again after it was printed. */
  lemma BlockedExactlyWhenLate(arrivals: seq<nat>, pieces: seq<Octets>)
    requires WithinPieces(arrivals, pieces)
    ensures Blocked(Receive(FRESH, arrivals, pieces)) <==> !Timely(FRESH, arrivals, pieces)
  {
    if Timely(FRESH, arrivals, pieces) {
      TimelyKeepsOrder(FRESH, {}, arrivals, pieces);
    } else {
      LateMeansBlocked(FRESH, {}, arrivals, pieces);
    }
  }

  // ------------------------------------------------------------------ the object

  class Consumer {
    var nextToPrint: nat
    var bufferedData: map<nat, Octets>
    var outputStream: Octets

    ghost function View(): State
      reads this
    {
      State(nextToPrint, bufferedData, outputStream)
    }

    constructor ()
      ensures View() == FRESH
    {
      nextToPrint, bufferedData, outputStream := 0, map[], [];
    }

    /** An application-level Nack is refused, for the caller to cancel the pipeline and fail;
        other Data is buffered and what is next in order is written. */
    method OnDataValidated(segNo: nat, content: Octets, isNack: bool) returns (refused: bool)
      modifies this
      ensures refused <==> isNack
      ensures View() == if isNack then old(View()) else OnData(old(View()), segNo, content)
    {
      if isNack {
        return true;
      }
      bufferedData := bufferedData[segNo := content];
      WriteInOrderData();
      return false;
    }

    method WriteInOrderData()
      modifies this
      ensures View() == WriteInOrder(old(View()))
    {
      while nextToPrint in bufferedData && (forall k | k in bufferedData.Keys :: nextToPrint <= k)
        invariant WriteInOrder(View()) == WriteInOrder(old(View()))
        decreases |bufferedData|
      {
        SmallerBuffer(bufferedData, nextToPrint);
        outputStream := outputStream + bufferedData[nextToPrint];
        bufferedData := bufferedData - {nextToPrint};
        nextToPrint := nextToPrint + 1;
      }
    }
  }
}
