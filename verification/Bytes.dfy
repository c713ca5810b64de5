/** Octet strings. */
module Bytes {

  type byte = b: int | 0 <= b < 256

  type Octets = seq<byte>

  function Concat(chunks: seq<Octets>): Octets {
    if chunks == [] then [] else chunks[0] + Concat(chunks[1..])
  }

  lemma {:induction false} ConcatAppend(chunks: seq<Octets>, more: seq<Octets>)
    ensures Concat(chunks + more) == Concat(chunks) + Concat(more)
  {
    if chunks == [] {
      assert chunks + more == more;
    } else {
      assert (chunks + more)[1..] == chunks[1..] + more;
      ConcatAppend(chunks[1..], more);
    }
  }

  lemma ConcatOne(chunks: seq<Octets>, last: Octets)
    ensures Concat(chunks + [last]) == Concat(chunks) + last
  {
    ConcatAppend(chunks, [last]);
    assert [last][1..] == [];
  }
}
