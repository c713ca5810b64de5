/** The producer: it cuts its input into segments once and answers Interests from them. */
module Producer {
  import opened Bytes
  import opened Optional

  /** A Data packet of the store; signatures and freshness do not matter here. */
  datatype Data = Data(segNo: nat, content: Octets, finalBlockId: Option<nat>)

  /** The input cut into pieces of `n` octets, the last one possibly shorter.  An empty input
      is one empty piece. */
  function Chunks(input: Octets, n: nat): (r: seq<Octets>)
    requires n >= 1
    ensures r != []
    decreases |input|
  {
    if |input| <= n then [input] else [input[..n]] + Chunks(input[n..], n)
  }

  /** The pieces make up the input, and all but the last are full. */
  lemma {:induction false} ChunksMakeUpInput(input: Octets, n: nat)
    requires n >= 1
    ensures Concat(Chunks(input, n)) == input
    ensures var c := Chunks(input, n);
            && (forall i :: 0 <= i < |c| - 1 ==> |c[i]| == n)
            && |c[|c| - 1]| <= n && (input != [] ==> |c[|c| - 1]| > 0)
    decreases |input|
  {
    if |input| > n {
      ChunksMakeUpInput(input[n..], n);
      assert Chunks(input, n)[1..] == Chunks(input[n..], n);
    } else {
      assert [input][1..] == [];
    }
  }

  /** A packet for each piece, numbered from 0 and all naming the same FinalBlockId. */
  function Packets(pieces: seq<Octets>, finalBlockId: Option<nat>): (r: seq<Data>)
    ensures |r| == |pieces| && forall i :: 0 <= i < |r| ==> r[i] == Data(i, pieces[i], finalBlockId)
  {
    seq(|pieces|, i requires 0 <= i < |pieces| => Data(i, pieces[i], finalBlockId))
  }

  /** A packet of the content: its piece, naming the last segment or none.  The packets of
      the producer's store all name it. */
  ghost predicate Genuine(pieces: seq<Octets>, data: Data) {
    && data.segNo < |pieces| && data.content == pieces[data.segNo]
    && (data.finalBlockId.Some? ==> data.finalBlockId.value == |pieces| - 1)
  }

  /** What one read of up to `n` octets from position `pos` contributes. */
  lemma ChunksStep(input: Octets, n: nat, pos: nat)
    requires n >= 1 && pos < |input|
    ensures var end := if pos + n < |input| then pos + n else |input|;
            Chunks(input[pos..], n) ==
            [input[pos..end]] + if end < |input| then Chunks(input[end..], n) else []
  {
    if pos + n < |input| {
      assert input[pos..][..n] == input[pos..pos + n];
      assert input[pos..][n..] == input[pos + n..];
    } else {
      assert input[pos..] == input[pos..|input|];
    }
  }

  /** One more read: what has been stored, and what remains, still make up the pieces. */
  lemma ReadOneMore(input: Octets, n: nat, pos: nat, done: seq<Octets>, all: seq<Octets>)
    requires n >= 1 && pos < |input| && done + Chunks(input[pos..], n) == all
    ensures var end := if pos + n < |input| then pos + n else |input|;
            var more := done + [input[pos..end]];
            if end < |input| then more + Chunks(input[end..], n) == all else more == all
  {
    ChunksStep(input, n, pos);
    var end := if pos + n < |input| then pos + n else |input|;
    if end < |input| {
      hide Chunks;
      assert done + ([input[pos..end]] + Chunks(input[end..], n)) == done + [input[pos..end]] + Chunks(input[end..], n);
    }
  }

  class Producer {
    const maxSegmentSize: nat
    var store: seq<Data>
    ghost var pieces: seq<Octets>

    /** The store holds the pieces in order, each naming the last one. */
    ghost predicate Valid()
      reads this
    {
      pieces != [] && store == Packets(pieces, Some(|pieces| - 1))
    }

    constructor (input: Octets, maxSegmentSize: nat)
      requires maxSegmentSize >= 1
      ensures this.maxSegmentSize == maxSegmentSize
      ensures Valid() && pieces == Chunks(input, maxSegmentSize)
    {
      this.maxSegmentSize := maxSegmentSize;
      store, pieces := [], [];
      new;
      PopulateStore(input);
    }

    method PopulateStore(input: Octets)
      requires maxSegmentSize >= 1 && store == []
      modifies this
      ensures Valid() && pieces == Chunks(input, maxSegmentSize)
    {
      ReadInput(input);
      if store == [] {
        store := Packets([[]], None);
      }
      pieces := Chunks(input, maxSegmentSize);
      assert store == Packets(pieces, None);
      var finalBlockId := |store| - 1;
      for i := 0 to |store|
        invariant |store| == |pieces| == finalBlockId + 1 && pieces == Chunks(input, maxSegmentSize)
        invariant forall j :: 0 <= j < |store| ==>
                    store[j] == Data(j, pieces[j], if j < i then Some(finalBlockId) else None)
      {
        store := store[i := store[i].(finalBlockId := Some(finalBlockId))];
      }
    }

    /** Full buffers are read until one comes up short, which ends the stream. */
    method ReadInput(input: Octets)
      requires maxSegmentSize >= 1 && store == []
      modifies this`store
      ensures store == if input == [] then [] else Packets(Chunks(input, maxSegmentSize), None)
    {
      hide Chunks;
      var pos: nat, good := 0, true;
      assert input[pos..] == input;
      ghost var done: seq<Octets> := [];
      ghost var all := Chunks(input, maxSegmentSize);
      while good
        invariant pos <= |input| && store == Packets(done, None)
        invariant pos == |input| ==> done == if input == [] then [] else all
        invariant pos < |input| ==> good && done + Chunks(input[pos..], maxSegmentSize) == all
        decreases |input| - pos, good
      {
        var nCharsRead := if pos + maxSegmentSize <= |input| then maxSegmentSize else |input| - pos;
        good := nCharsRead == maxSegmentSize;
        if nCharsRead > 0 {
          var end := pos + nCharsRead;
          ReadOneMore(input, maxSegmentSize, pos, done, all);
          store := store + [Data(|store|, input[pos..end], None)];
          done := done + [input[pos..end]];
          pos := end;
        }
      }
    }

    /** The answer to an Interest for one segment: the packet of that number, which is one of the
        content, when the content has one; otherwise none, and the Interest is left to time out. */
    method OnInterest(segNo: nat) returns (data: Option<Data>)
      requires Valid()
      ensures data.Some? <==> segNo < |pieces|
      ensures data.Some? ==> data.value.segNo == segNo && Genuine(pieces, data.value) && data.value.finalBlockId.Some?
    {
      data := None;
      if segNo < |store| {
        data := Some(store[segNo]);
      }
    }
  }
}
