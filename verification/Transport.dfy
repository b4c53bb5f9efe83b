/** Both sides of a TCP connection together. */
module Transport {
  import opened Common
  import opened Receiving
  import Sending

  /** A message is sent as a fragment with a vector for its header and one for each segment of its payload. */
  predicate IsFragment(frag: Sending.Vectors, m: Sent, nbo: bool)
    requires m.Fits()
  {
    frag != [] && frag[0] == m.Hdr(nbo) && Flatten(frag[1..]) == m.payload
  }

  /** One send for each message, and whatever else happens on the sending side in between. */
  ghost predicate Sends(events: seq<Sending.Event>, sent: seq<Sent>, nbo: bool)
    requires AllFit(sent)
  {
    if events == [] then sent == []
    else if events[0].Send? then
      sent != [] && IsFragment(events[0].frag, sent[0], nbo) && Sends(events[1..], sent[1..], nbo)
    else Sends(events[1..], sent, nbo)
  }

  lemma {:induction false} HandedStream(events: seq<Sending.Event>, sent: seq<Sent>, nbo: bool)
    requires AllFit(sent) && Sends(events, sent, nbo)
    ensures Sending.Handed(events) == Stream(sent, nbo)
    ensures forall e :: e in events && e.Send? ==> e.frag != []
  {
    if events != [] {
      var e := events[0];
      assert events == [e] + events[1..];
      if e.Send? {
        HandedStream(events[1..], sent[1..], nbo);
      } else {
        HandedStream(events[1..], sent, nbo);
        assert [] + Sending.Handed(events[1..]) == Sending.Handed(events[1..]);
      }
    }
  }

  /** Messages sent in any interleaving with the events of the connection, over a socket that takes and hands over the
      bytes in pieces of any sizes, are delivered in order, each with its tag and, if it is not empty, its payload. */
  method Transmit(sent: seq<Sent>, events: seq<Sending.Event>, nbo: bool, rooms: seq<int>, cacheSize: nat,
                  portions: seq<nat>)
    returns (r: Receiver)
    requires AllFit(sent) && Sends(events, sent, nbo) && cacheSize > 0 && Positive(portions)
    ensures fresh(r) && |r.delivered| == |sent| && forall i :: 0 <= i < |sent| ==> HandsOut(r.delivered[i], sent[i])
  {
    hide Stream, Parse, Carry, Messages, Sends, Sending.Handed;
    HandedStream(events, sent, nbo);
    ParseStream(sent, nbo);
    var wire := Sending.SendAll(events, rooms);
    r := new Receiver(cacheSize, nbo, portions);
    Drain(r, wire);
    CarrySent(r.delivered, sent, nbo);
  }
}
