/** Sender, network and receiver put together: what SendDatagram and ForceDatagram2 are given is what goes on the wire
    and what the application at the other end receives. */
module Delivery {
  import opened Base
  import opened AckCodec
  import opened SenderSpec
  import opened SendMachine
  import opened SendCalls
  import Session
  import AckNetwork
  import Lifecycle

  // ----- The wire -----

  /** In an uninterrupted SendDatagram the machine of the network posts exactly the datagram2 that the session sends:
      the payload framed with the number that was just assigned and tracked. */
  lemma NetworkPostsWire(s: System, g: Goroutine, t: SendTimes, data: Bytes, ok: bool)
    requires g !in s.pcs && InOrder(s.now, t) && UsesDatagram2(s.v, t.check)
    ensures var s' := After(s, [StartSend(g, t.check)] + CallMark(s, g, t));
            var posted := AckNetwork.Sends(s', Resume(g, t.track, ok), data);
            && posted.Some? && Session.WireFor(s.v, t, data) == Session.Datagram2(posted.value)
            && Decode(posted.value) == Request(s'.v.lastSeqNum, data) && s'.v.lastSeqNum in s'.v.unacked
  {
    var s1 := AfterOne(s, [], StartSend(g, t.check));
    CallMarks(s1, g, t);
    AfterConcat(s, [StartSend(g, t.check)], CallMark(s, g, t));
    var m := Mark(s.v, t.mark);
    EveryDatagram2RequestsAck(m);
    DecodeInvertsEncoders(m.lastSeqNum, data);
  }

  /** When it chooses datagram3, no datagram2 is posted. */
  lemma NetworkPostsNothing(s: System, g: Goroutine, t: SendTimes, data: Bytes, now: Time, ok: bool)
    requires g !in s.pcs && InOrder(s.now, t) && !UsesDatagram2(s.v, t.check)
    ensures var s' := After(s, [StartSend(g, t.check)]);
            && AckNetwork.Sends(s', Resume(g, now, ok), data) == None
            && Session.WireFor(s.v, t, data) == Session.Datagram3(data)
  {
    var s1 := AfterOne(s, [], StartSend(g, t.check));
  }

  /** ForceDatagram2 posts its payload as it is. */
  lemma NetworkPostsForced(s: System, g: Goroutine, t: SendTimes, data: Bytes, ok: bool)
    requires g !in s.pcs && s.now <= t.mark
    ensures AckNetwork.Sends(After(s, [StartForced(g, t.mark)]), Resume(g, t.mark, ok), data) == Some(data)
  {
    var s1 := AfterOne(s, [], StartForced(g, t.mark));
  }

  // ----- From end to end -----

  /** A call of SendDatagram by `source`, from some state and at some times. */
  datatype Sending = Sending(v: View, t: SendTimes, data: Bytes, source: Addr)

  /** The read is what the call put on the wire, as the form that the loop reads. */
  predicate ReadOf(r: Lifecycle.Read, x: Sending, two: bool) {
    var wire := Session.WireFor(x.v, x.t, x.data);
    wire.Datagram2? == two && r.Got? && r.payload == wire.payload && r.source == x.source
  }

  predicate AllReadOf(returned: seq<Lifecycle.Read>, xs: seq<Sending>, two: bool) {
    |xs| == |returned| && forall i | 0 <= i < |xs| :: ReadOf(returned[i], xs[i], two)
  }

  function Items(xs: seq<Sending>, two: bool): seq<Lifecycle.Item> {
    if xs == [] then []
    else
      var last := xs[|xs| - 1];
      Items(xs[..|xs| - 1], two) + [Lifecycle.Item(last.data, last.source, two)]
  }

  lemma ArrivalOf(r: Lifecycle.Read, x: Sending, two: bool) returns (a: Lifecycle.Arrival)
    requires ReadOf(r, x, two)
    ensures Lifecycle.Brings(r, a, two)
    ensures if two then a.Framed? && a.data == x.data && a.source == x.source
            else a == Lifecycle.Unmarked(x.data, x.source)
  {
    var m := Mark(x.v, x.t.mark);
    EveryDatagram2RequestsAck(m);
    a := if two then Lifecycle.Framed(m.lastSeqNum, x.data, x.source) else Lifecycle.Unmarked(x.data, x.source);
  }

  lemma {:induction false} ArrivalsOf(returned: seq<Lifecycle.Read>, xs: seq<Sending>, two: bool)
    returns (arrivals: seq<Lifecycle.Arrival>)
    requires AllReadOf(returned, xs, two)
    ensures Lifecycle.AllBring(returned, arrivals, two) && Lifecycle.Payloads(arrivals, two) == Items(xs, two)
  {
    if xs == [] {
      arrivals := [];
    } else {
      var n := |xs| - 1;
      var front := ArrivalsOf(returned[..n], xs[..n], two);
      var last := ArrivalOf(returned[n], xs[n], two);
      arrivals := front + [last];
      assert arrivals[..n] == front;
      forall i | 0 <= i < |arrivals| ensures Lifecycle.Brings(returned[i], arrivals[i], two) {
        if i < n {
          assert Lifecycle.Brings(returned[..n][i], front[i], two);
        }
      }
    }
  }

  /** What SendDatagram was given is what arrives: when the reads of a loop are the wire messages of some calls, the
      application receives the payloads of those calls in their order, with their sources, without gaps, and nothing
      else of that kind. */
  lemma SentIsReceived(es: seq<Lifecycle.Event>, xs: seq<Sending>, two: bool)
    requires AllReadOf(Lifecycle.ProducerOf(Lifecycle.Run(es), two).returned, xs, two)
    ensures Lifecycle.Stream(Lifecycle.Run(es).received, two) <= Items(xs, two)
  {
    var arrivals := ArrivalsOf(Lifecycle.ProducerOf(Lifecycle.Run(es), two).returned, xs, two);
    Lifecycle.ReceivedAsSent(es, arrivals, two);
  }
}
