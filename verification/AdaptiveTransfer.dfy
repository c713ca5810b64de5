/** Producer, adaptive pipeline and consumer together. */
module AdaptiveTransfer {
  import opened Optional
  import opened Bytes
  import opened Counting
  import opened AdaptiveSpec
  import opened AdaptiveInvariant
  import opened AdaptiveTheorems
  import C = Consumer
  import P = Producer
  import T = Transfer

  /** The consumer once it has taken in the discovered segment and every segment that the
      pipeline has delivered, each with its piece of the content. */
  ghost function Consumed(w: Setting, s: Engine, pieces: seq<Octets>): C.State
    requires C.WithinPieces([w.c.excluded] + s.log.delivered, pieces)
  {
    C.Receive(C.FRESH, [w.c.excluded] + s.log.delivered, pieces)
  }

  lemma DeliveredIsWithin(w: Setting, finalBlockId: Option<nat>, events: seq<Event>, pieces: seq<Octets>)
    requires Opens(w, finalBlockId) && AllowedRun(w, Start(w.c, finalBlockId), events) && |pieces| == w.content + 1
    ensures var s := Run(w.c, Start(w.c, finalBlockId), events);
            Distinct([w.c.excluded] + s.log.delivered) && C.WithinPieces([w.c.excluded] + s.log.delivered, pieces)
  {
    hide Run, Start, AllowedRun;
    DeliveredAtMostOnce(w, finalBlockId, events);
    var s := Run(w.c, Start(w.c, finalBlockId), events);
    T.FirstAndRest(w.c.excluded, s.log.delivered, w.content);
    var arrivals := [w.c.excluded] + s.log.delivered;
    forall i | 0 <= i < |arrivals|
      ensures arrivals[i] < |pieces|
    {
      if i > 0 {
        assert arrivals[i] == s.log.delivered[i - 1] && arrivals[i] in s.log.delivered;
      }
    }
  }

  /** Whatever Data is lost, repeated and reordered: the consumer has printed a prefix of the
      producer's input, and all of it when the pipeline has stopped in success or there was
      nothing to fetch beyond the discovered segment. */
  lemma EndToEnd(w: Setting, finalBlockId: Option<nat>, events: seq<Event>, input: Octets, maxSegmentSize: nat)
    requires maxSegmentSize >= 1 && |P.Chunks(input, maxSegmentSize)| == w.content + 1
    requires Opens(w, finalBlockId) && AllowedRun(w, Start(w.c, finalBlockId), events)
    ensures var pieces := P.Chunks(input, maxSegmentSize);
            var s := Run(w.c, Start(w.c, finalBlockId), events);
            && C.WithinPieces([w.c.excluded] + s.log.delivered, pieces)
            && Consumed(w, s, pieces).output <= input
            && (s.outcome == Succeeded || w.content == 0 ==> Consumed(w, s, pieces).output == input)
  {
    hide Run, Start, AllowedRun, C.Receive;
    var pieces := P.Chunks(input, maxSegmentSize);
    var s := Run(w.c, Start(w.c, finalBlockId), events);
    var arrivals := [w.c.excluded] + s.log.delivered;
    DeliveredIsWithin(w, finalBlockId, events, pieces);
    DeliveredAtMostOnce(w, finalBlockId, events);
    SuccessIsComplete(w, finalBlockId, events);
    T.FirstAndRest(w.c.excluded, s.log.delivered, w.content);
    T.Printed(arrivals, pieces);
    P.ChunksMakeUpInput(input, maxSegmentSize);
    T.PrefixOfConcat(pieces, C.Receive(C.FRESH, arrivals, pieces).nextToPrint);
  }
}
