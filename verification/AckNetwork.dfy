/** ACKs among any number of parties over a network that loses, reorders and duplicates datagram2s but delivers
    them under their true source. Every party runs the send machine for every peer. */
module AckNetwork {
  import opened Base
  import opened AckCodec
  import opened SenderSpec
  import opened SendMachine

  datatype Datagram2 = Datagram2(source: Addr, target: Addr, payload: Bytes)

  /** An ACK request: `sender` asks `peer` to acknowledge seqNum. */
  datatype Asked = Asked(sender: Addr, peer: Addr, seqNum: U64)

  /** The machine that `owner` runs for `peer`. */
  datatype Link = Link(owner: Addr, peer: Addr)

  /** A section of a call, with the payload it sends if it sends one; or the arrival of a datagram2. */
  datatype NetEvent =
    | Local(link: Link, e: Event, data: Bytes)
    | Deliver(d: Datagram2, now: Time, responds: bool)

  /** `wire` holds every datagram2 ever handed to the network, `asked` the requests put on it, `received` those
      that arrived. */
  datatype Net = Net(machines: map<Link, System>, wire: set<Datagram2>, asked: set<Asked>, received: set<Asked>)

  const Quiet: Net := Net(map[], {}, {}, {})

  /** AckRequestInterval is a variable in the code. */
  type Interval = n: nat | n > 0 witness 1

  function MachineOf(n: Net, l: Link): System {
    if l in n.machines then n.machines[l] else Start
  }

  /** The machine under any AckRequestInterval. */
  function StepEvery(s: System, e: Event, interval: Interval): System {
    if Enabled(s, e) && e.Resume? && s.pcs[e.g].AtRequest? && !RequestsAckEvery(s.v, interval)
    then Move(s.(now := e.now), e.g, AtSend2(s.pcs[e.g].seqNum, s.pcs[e.g].mark, false))
    else Step(s, e)
  }

  lemma ConfiguredInterval(s: System, e: Event)
    ensures StepEvery(s, e, ACK_REQUEST_INTERVAL) == Step(s, e)
  {
  }

  /** Whether the next section of the goroutine is the raw send of ForceDatagram2. */
  predicate Forces(s: System, e: Event) {
    Enabled(s, e) && e.Resume? && s.pcs[e.g].ForcedAtSend?
  }

  /** The payload that a section hands to the datagram2 subsession. One that fails may still have left. */
  function Sends(s: System, e: Event, data: Bytes): Option<Bytes> {
    if Forces(s, e) then Some(data)
    else if Enabled(s, e) && e.Resume? && s.pcs[e.g].AtSend2? then
      Some(if s.pcs[e.g].framed then EncodeRequest(s.pcs[e.g].seqNum, data) else data)
    else None
  }

  function Post(n: Net, d: Datagram2): Net {
    var n' := n.(wire := n.wire + {d});
    match Decode(d.payload)
    case Request(seqNum, _) => n'.(asked := n.asked + {Asked(d.source, d.target, seqNum)})
    case _ => n'
  }

  /** processDatagram2Ack at the target of a datagram2. */
  function Receive(n: Net, d: Datagram2, now: Time, responds: bool): Net {
    match Decode(d.payload)
    case Response(seqNum) =>
      var l := Link(d.target, d.source);
      n.(machines := n.machines[l := Step(MachineOf(n, l), AckArrives(seqNum, now))])
    case Request(seqNum, _) =>
      var n' := n.(received := n.received + {Asked(d.source, d.target, seqNum)});
      if responds then Post(n', Datagram2(d.target, d.source, EncodeResponse(seqNum))) else n'
    case Plain(_) => n
  }

  /** ACKs come from the network only, which delivers what was put on it, any number of times, in any order, or
      never. */
  function NetStep(n: Net, e: NetEvent, interval: Interval): Net {
    match e
    case Local(l, e, data) =>
      if e.AckArrives? then n
      else
        var s := MachineOf(n, l);
        var n' := n.(machines := n.machines[l := StepEvery(s, e, interval)]);
        var sent := Sends(s, e, data);
        if sent.Some? then Post(n', Datagram2(l.owner, l.peer, sent.value)) else n'
    case Deliver(d, now, responds) => if d in n.wire then Receive(n, d, now, responds) else n
  }

  function NetRun(es: seq<NetEvent>, interval: Interval): Net {
    if es == [] then Quiet else NetStep(NetRun(es[..|es| - 1], interval), es[|es| - 1], interval)
  }

  /** What applications may give to ForceDatagram2 and to SendDatagram. */
  datatype Allowed = Allowed(forced: iset<Bytes>, sent: iset<Bytes>)

  ghost predicate PermittedStep(n: Net, e: NetEvent, allowed: Allowed) {
    e.Local? && Sends(MachineOf(n, e.link), e.e, e.data).Some? ==>
      if Forces(MachineOf(n, e.link), e.e) then e.data in allowed.forced else e.data in allowed.sent
  }

  ghost predicate Permitted(es: seq<NetEvent>, interval: Interval, allowed: Allowed) {
    es != [] ==>
      var front := es[..|es| - 1];
      Permitted(front, interval, allowed) && PermittedStep(NetRun(front, interval), es[|es| - 1], allowed)
  }

  /** A payload that, sent raw, is not taken for the acknowledgement of a number. */
  predicate Harmless(payload: Bytes) {
    Decode(payload).Response? ==> Decode(payload).ackedSeqNum == 0
  }

  /** LastAckedSeqNum is 0 or a number that the owner put into an ACK request and the peer received in one. */
  predicate Acknowledged(n: Net, l: Link) {
    var acked := MachineOf(n, l).v.lastAcked;
    acked != 0 ==> Asked(l.owner, l.peer, acked) in n.asked && Asked(l.owner, l.peer, acked) in n.received
  }

  // ----- Soundness -----

  /** Forced payloads are harmless, and so are those of SendDatagram unless every datagram2 asks for an ACK. */
  ghost predicate HarmlessWhenRaw(interval: Interval, allowed: Allowed) {
    && (forall data | data in allowed.forced :: Harmless(data))
    && (interval == 1 || forall data | data in allowed.sent :: Harmless(data))
  }

  /** A datagram2 on the wire says only what its sender may say. */
  predicate Honest(n: Net, d: Datagram2) {
    match Decode(d.payload)
    case Response(seqNum) => seqNum == 0 || Asked(d.target, d.source, seqNum) in n.received
    case Request(seqNum, _) => Asked(d.source, d.target, seqNum) in n.asked
    case Plain(_) => true
  }

  /** When every datagram2 asks for an ACK, every payload of SendDatagram is framed. */
  predicate Framing(s: System, interval: Interval) {
    interval == 1 ==> forall g | g in s.pcs && s.pcs[g].AtSend2? :: s.pcs[g].framed
  }

  predicate Sound(n: Net, interval: Interval) {
    && (forall d | d in n.wire :: Honest(n, d))
    && n.received <= n.asked
    && (forall l | l in n.machines :: Framing(n.machines[l], interval) && Acknowledged(n, l))
  }

  lemma StepFrames(s: System, e: Event, interval: Interval)
    requires Framing(s, interval)
    ensures Framing(StepEvery(s, e, interval), interval)
    ensures !e.AckArrives? ==> StepEvery(s, e, interval).v.lastAcked == s.v.lastAcked
    ensures e.AckArrives? ==> Step(s, e).v.lastAcked in {s.v.lastAcked, e.seqNum}
  {
  }

  /** One machine moves on, and what it knows as acknowledged stays so. */
  lemma MachineKeeps(n: Net, l: Link, s: System, interval: Interval)
    requires Sound(n, interval) && Framing(s, interval)
    requires s.v.lastAcked != 0 ==> Asked(l.owner, l.peer, s.v.lastAcked) in n.received
    ensures Sound(n.(machines := n.machines[l := s]), interval)
  {
    var n' := n.(machines := n.machines[l := s]);
    forall d | d in n'.wire ensures Honest(n', d) {
      assert Honest(n, d);
    }
    forall k | k in n'.machines ensures Framing(n'.machines[k], interval) && Acknowledged(n', k) {
      assert k != l ==> Acknowledged(n, k);
    }
  }

  lemma PostKeeps(n: Net, d: Datagram2, interval: Interval)
    requires Sound(n, interval) && (Decode(d.payload).Response? ==> Honest(n, d))
    ensures Sound(Post(n, d), interval)
  {
    var n' := Post(n, d);
    forall x | x in n'.wire ensures Honest(n', x) {
      assert x in n.wire ==> Honest(n, x);
    }
    assert forall l | l in n'.machines :: Acknowledged(n, l) ==> Acknowledged(n', l);
  }

  lemma RequestReceived(n: Net, asked: Asked, interval: Interval)
    requires Sound(n, interval) && asked in n.asked
    ensures Sound(n.(received := n.received + {asked}), interval)
  {
    var n' := n.(received := n.received + {asked});
    forall d | d in n'.wire ensures Honest(n', d) {
      assert Honest(n, d);
    }
    assert forall l | l in n'.machines :: Acknowledged(n, l) ==> Acknowledged(n', l);
  }

  lemma ReceiveKeeps(n: Net, d: Datagram2, now: Time, responds: bool, interval: Interval)
    requires Sound(n, interval) && d in n.wire
    ensures Sound(Receive(n, d, now, responds), interval)
  {
    assert Honest(n, d);
    match Decode(d.payload)
    case Request(seqNum, _) =>
      var asked := Asked(d.source, d.target, seqNum);
      RequestReceived(n, asked, interval);
      DecodeInvertsEncoders(seqNum, []);
      if responds {
        var reply := Datagram2(d.target, d.source, EncodeResponse(seqNum));
        PostKeeps(n.(received := n.received + {asked}), reply, interval);
      }
    case Response(seqNum) =>
      var l := Link(d.target, d.source);
      StepFrames(MachineOf(n, l), AckArrives(seqNum, now), interval);
      MachineKeeps(n, l, Step(MachineOf(n, l), AckArrives(seqNum, now)), interval);
    case Plain(_) =>
  }

  lemma LocalKeeps(n: Net, l: Link, e: Event, data: Bytes, interval: Interval, allowed: Allowed)
    requires Sound(n, interval) && !e.AckArrives?
    requires HarmlessWhenRaw(interval, allowed) && PermittedStep(n, Local(l, e, data), allowed)
    ensures Sound(NetStep(n, Local(l, e, data), interval), interval)
  {
    var s := MachineOf(n, l);
    StepFrames(s, e, interval);
    MachineKeeps(n, l, StepEvery(s, e, interval), interval);
    var n' := n.(machines := n.machines[l := StepEvery(s, e, interval)]);
    match Sends(s, e, data)
    case Some(payload) =>
      if !Forces(s, e) {
        DecodeInvertsEncoders(s.pcs[e.g].seqNum, data);
      }
      PostKeeps(n', Datagram2(l.owner, l.peer, payload), interval);
    case None =>
  }

  /** The invariant of all runs in which every payload that may go out raw is harmless. */
  lemma {:induction false} RunSound(es: seq<NetEvent>, interval: Interval, allowed: Allowed)
    requires Permitted(es, interval, allowed) && HarmlessWhenRaw(interval, allowed)
    ensures Sound(NetRun(es, interval), interval)
  {
    if es != [] {
      var front, e := es[..|es| - 1], es[|es| - 1];
      var n := NetRun(front, interval);
      RunSound(front, interval, allowed);
      match e
      case Local(l, e, data) => if !e.AckArrives? { LocalKeeps(n, l, e, data, interval, allowed); }
      case Deliver(d, now, responds) => if d in n.wire { ReceiveKeeps(n, d, now, responds, interval); }
    }
  }

  // ----- Completeness -----

  /** A request on the wire whose number is outstanding: once it arrives, and the response to it, the number is
      acknowledged, whatever else has happened to the network. */
  lemma RoundTripAcknowledges(n: Net, l: Link, seqNum: U64, data: Bytes, at: Time, later: Time,
                              interval: Interval)
    requires Datagram2(l.owner, l.peer, EncodeRequest(seqNum, data)) in n.wire
    requires seqNum in MachineOf(n, l).v.unacked && MachineOf(n, l).now <= later
    ensures var there := Deliver(Datagram2(l.owner, l.peer, EncodeRequest(seqNum, data)), at, true);
            var back := Deliver(Datagram2(l.peer, l.owner, EncodeResponse(seqNum)), later, true);
            var n' := NetStep(NetStep(n, there, interval), back, interval);
            && Asked(l.owner, l.peer, seqNum) in n'.received
            && seqNum !in MachineOf(n', l).v.unacked && MachineOf(n', l).v.lastAcked >= seqNum
  {
    DecodeInvertsEncoders(seqNum, data);
    var n1 := Receive(n, Datagram2(l.owner, l.peer, EncodeRequest(seqNum, data)), at, true);
    assert MachineOf(n1, l) == MachineOf(n, l);
  }

  // ----- Forgery -----

  lemma Next(es: seq<NetEvent>, e: NetEvent, interval: Interval, allowed: Allowed) returns (es': seq<NetEvent>)
    requires Permitted(es, interval, allowed) && PermittedStep(NetRun(es, interval), e, allowed)
    ensures Permitted(es', interval, allowed) && NetRun(es', interval) == NetStep(NetRun(es, interval), e, interval)
  {
    es' := es + [e];
    assert es'[..|es|] == es;
  }

  /** n' is n with another machine on the link and more on the wire. */
  ghost predicate Moved(n: Net, n': Net, l: Link, s: System) {
    && n'.received == n.received && n.wire <= n'.wire && MachineOf(n', l) == s
    && forall k | k != l :: MachineOf(n', k) == MachineOf(n, k)
  }

  lemma NextLocal(es: seq<NetEvent>, l: Link, e: Event, data: Bytes, interval: Interval, allowed: Allowed)
    returns (es': seq<NetEvent>)
    requires Permitted(es, interval, allowed) && !e.AckArrives?
    requires PermittedStep(NetRun(es, interval), Local(l, e, data), allowed)
    ensures Permitted(es', interval, allowed)
    ensures var n, n' := NetRun(es, interval), NetRun(es', interval); var s := MachineOf(n, l);
            && Moved(n, n', l, StepEvery(s, e, interval))
            && (Sends(s, e, data).Some? ==> Datagram2(l.owner, l.peer, Sends(s, e, data).value) in n'.wire)
  {
    es' := Next(es, Local(l, e, data), interval, allowed);
  }

  predicate Free(s: System) {
    s.pcs == map[] && s.v.counter == 0
  }

  lemma Marked(es: seq<NetEvent>, l: Link, data: Bytes, t: Time, interval: Interval, allowed: Allowed)
    returns (es': seq<NetEvent>)
    requires Permitted(es, interval, allowed)
    requires var s := MachineOf(NetRun(es, interval), l); Free(s) && s.now <= t
    ensures Permitted(es', interval, allowed)
    ensures var n, n' := NetRun(es, interval), NetRun(es', interval);
            var s, s' := MachineOf(n, l), MachineOf(n', l); var m := Mark(s.v, t);
            && Moved(n, n', l, s') && s'.now == t && s'.v == m && |s'.h.marks| == |s.h.marks| + 1
            && s'.pcs == map[0 := AtRequest(m.lastSeqNum, |s'.h.marks|)]
  {
    es' := NextLocal(es, l, StartSend(0, t), data, interval, allowed);
    es' := NextLocal(es', l, Resume(0, t, true), data, interval, allowed);
  }

  /** SendDatagram up to its send: marked, and framed and tracked if an ACK is asked for. */
  lemma Prepared(es: seq<NetEvent>, l: Link, data: Bytes, t: Time, interval: Interval, allowed: Allowed)
    returns (es': seq<NetEvent>)
    requires Permitted(es, interval, allowed)
    requires var s := MachineOf(NetRun(es, interval), l); Free(s) && s.now <= t
    ensures Permitted(es', interval, allowed)
    ensures var n, n' := NetRun(es, interval), NetRun(es', interval);
            var s, s' := MachineOf(n, l), MachineOf(n', l); var m := Mark(s.v, t);
            && Moved(n, n', l, s') && s'.now == t
            && s'.v == (if RequestsAckEvery(m, interval) then Track(m, m.lastSeqNum, t) else m)
            && s'.pcs == map[0 := AtSend2(m.lastSeqNum, |s.h.marks| + 1, RequestsAckEvery(m, interval))]
  {
    es' := Marked(es, l, data, t, interval, allowed);
    var s := MachineOf(NetRun(es', interval), l);
    es' := NextLocal(es', l, Resume(0, t, true), data, interval, allowed);
    if RequestsAckEvery(s.v, interval) {
      assert MachineOf(NetRun(es', interval), l) == Move(s, 0, AtTrack(s.v.lastSeqNum, |s.h.marks|));
      es' := NextLocal(es', l, Resume(0, t, true), data, interval, allowed);
    }
  }

  /** A SendDatagram whose datagram2 leaves, although the send fails. */
  lemma FailedSend(es: seq<NetEvent>, l: Link, data: Bytes, t: Time, interval: Interval, allowed: Allowed)
    returns (es': seq<NetEvent>)
    requires Permitted(es, interval, allowed) && data in allowed.sent
    requires var s := MachineOf(NetRun(es, interval), l); Free(s) && s.now <= t
    ensures Permitted(es', interval, allowed)
    ensures var n, n' := NetRun(es, interval), NetRun(es', interval);
            var s, s' := MachineOf(n, l), MachineOf(n', l); var m := Mark(s.v, t);
            && Moved(n, n', l, s') && Free(s') && s'.now == t
            && s'.v == (if RequestsAckEvery(m, interval) then Track(m, m.lastSeqNum, t) else m)
            && var payload := if RequestsAckEvery(m, interval) then EncodeRequest(m.lastSeqNum, data) else data;
               Datagram2(l.owner, l.peer, payload) in n'.wire
  {
    es' := Prepared(es, l, data, t, interval, allowed);
    es' := NextLocal(es', l, Resume(0, t, false), data, interval, allowed);
  }

  /** No ACK has come back, and the last of `number` datagram2s, all at time 0, is outstanding. */
  predicate Outstanding(s: System, number: nat) {
    && Free(s) && s.now == 0 && s.v.rtt == 0 && s.v.lastAcked == 0
    && s.v.lastSeqNum == number && (number > 0 ==> number in s.v.unacked)
  }

  lemma LostSend(es: seq<NetEvent>, l: Link, number: nat, data: Bytes, interval: Interval, allowed: Allowed)
    returns (es': seq<NetEvent>)
    requires Permitted(es, interval, allowed) && data in allowed.sent && number + 1 < TWO64
    requires Outstanding(MachineOf(NetRun(es, interval), l), number)
    ensures Permitted(es', interval, allowed)
    ensures var n, n' := NetRun(es, interval), NetRun(es', interval); var s' := MachineOf(n', l);
            Moved(n, n', l, s') && Outstanding(s', number + 1)
  {
    var m := Mark(MachineOf(NetRun(es, interval), l).v, 0);
    assert RequestsAckEvery(m, interval) && m.lastSeqNum == number + 1;
    es' := FailedSend(es, l, data, 0, interval, allowed);
    assert number + 1 in Track(m, number + 1, 0).unacked;
  }

  /** `number` sends, none of which arrives. */
  lemma {:induction false} LostSends(l: Link, number: nat, data: Bytes, interval: Interval, allowed: Allowed)
    returns (es: seq<NetEvent>)
    requires number < TWO64 && data in allowed.sent
    ensures Permitted(es, interval, allowed)
    ensures var n := NetRun(es, interval);
            && n.received == {} && Outstanding(MachineOf(n, l), number)
            && forall k | k != l :: MachineOf(n, k) == Start
  {
    if number == 0 {
      es := [];
    } else {
      es := LostSends(l, number - 1, data, interval, allowed);
      es := LostSend(es, l, number - 1, data, interval, allowed);
    }
  }

  /** What looks like a response from the peer has reached the network. */
  predicate Forged(n: Net, l: Link, data: Bytes) {
    && Decode(data).Response? && Decode(data).ackedSeqNum != 0
    && Datagram2(l.peer, l.owner, data) in n.wire
    && Outstanding(MachineOf(n, l), Decode(data).ackedSeqNum)
    && Asked(l.owner, l.peer, Decode(data).ackedSeqNum) !in n.received
  }

  lemma ForgeryAcknowledges(es: seq<NetEvent>, l: Link, data: Bytes, interval: Interval, allowed: Allowed)
    returns (es': seq<NetEvent>)
    requires Permitted(es, interval, allowed) && Forged(NetRun(es, interval), l, data)
    ensures Permitted(es', interval, allowed) && !Acknowledged(NetRun(es', interval), l)
    ensures var n, n' := NetRun(es, interval), NetRun(es', interval);
            n'.received == n.received && MachineOf(n', l).v.lastAcked == Decode(data).ackedSeqNum
  {
    es' := Next(es, Deliver(Datagram2(l.peer, l.owner, data), 0, true), interval, allowed);
  }

  /** After as many failed sends of a to b, one forced payload from b to a that looks like the response with that
      number acknowledges what b never received. */
  lemma ForcedResponseForgesAck(l: Link, forced: Bytes, sent: Bytes, interval: Interval, allowed: Allowed)
    returns (es: seq<NetEvent>)
    requires l.owner != l.peer && !Harmless(forced) && forced in allowed.forced && sent in allowed.sent
    ensures Permitted(es, interval, allowed) && !Acknowledged(NetRun(es, interval), l)
    ensures var n := NetRun(es, interval);
            n.received == {} && MachineOf(n, l).v.lastAcked == Decode(forced).ackedSeqNum != 0
  {
    var back := Link(l.peer, l.owner);
    es := LostSends(l, Decode(forced).ackedSeqNum, sent, interval, allowed);
    es := NextLocal(es, back, StartForced(0, 0), forced, interval, allowed);
    es := NextLocal(es, back, Resume(0, 0, true), forced, interval, allowed);
    es := ForgeryAcknowledges(es, l, forced, interval, allowed);
  }

  /** The peer has had one ACK, after a millisecond, and next sends number q + 1. */
  predicate Measured(s: System, q: nat) {
    && Free(s) && s.now == MILLISECOND && s.v.rtt == 1 && s.v.lastSeqNum == q && |s.v.unacked| < q
  }

  /** A first datagram2 from the peer and its arrival, which puts the response on the wire. */
  lemma FirstRequest(es: seq<NetEvent>, back: Link, data: Bytes, interval: Interval, allowed: Allowed)
    returns (es': seq<NetEvent>)
    requires Permitted(es, interval, allowed) && data in allowed.sent
    requires MachineOf(NetRun(es, interval), back) == Start
    ensures Permitted(es', interval, allowed)
    ensures var n, n' := NetRun(es, interval), NetRun(es', interval); var s := MachineOf(n', back);
            && Free(s) && s.now == 0 && s.v == Track(Mark(Initial, 0), 1, 0)
            && n'.received == n.received + {Asked(back.owner, back.peer, 1)}
            && Datagram2(back.peer, back.owner, EncodeResponse(1)) in n'.wire
            && forall k | k != back :: MachineOf(n', k) == MachineOf(n, k)
  {
    es' := FailedSend(es, back, data, 0, interval, allowed);
    DecodeInvertsEncoders(1, data);
    es' := Next(es', Deliver(Datagram2(back.owner, back.peer, EncodeRequest(1, data)), 0, true), interval, allowed);
  }

  lemma FirstSample(s: System)
    requires Free(s) && s.now == 0 && s.v == Track(Mark(Initial, 0), 1, 0)
    ensures Measured(Step(s, AckArrives(1, MILLISECOND)), 1)
  {
    var v := Acked(s.v, 1, MILLISECOND);
    assert v.unacked == map[] && v.rtt == 1;
  }

  /** The response comes a millisecond later. */
  lemma FirstAck(es: seq<NetEvent>, back: Link, data: Bytes, interval: Interval, allowed: Allowed)
    returns (es': seq<NetEvent>)
    requires Permitted(es, interval, allowed) && data in allowed.sent
    requires MachineOf(NetRun(es, interval), back) == Start
    ensures Permitted(es', interval, allowed)
    ensures var n, n' := NetRun(es, interval), NetRun(es', interval);
            && Measured(MachineOf(n', back), 1) && n'.received == n.received + {Asked(back.owner, back.peer, 1)}
            && forall k | k != back :: MachineOf(n', k) == MachineOf(n, k)
  {
    es' := FirstRequest(es, back, data, interval, allowed);
    DecodeInvertsEncoders(1, data);
    FirstSample(MachineOf(NetRun(es', interval), back));
    var reply := Datagram2(back.peer, back.owner, EncodeResponse(1));
    es' := Next(es', Deliver(reply, MILLISECOND, true), interval, allowed);
  }

  /** Under the interval 2 the second datagram2 asks for an ACK, and the third does not. */
  lemma SecondSend(es: seq<NetEvent>, back: Link, data: Bytes, allowed: Allowed) returns (es': seq<NetEvent>)
    requires Permitted(es, 2, allowed) && data in allowed.sent && Measured(MachineOf(NetRun(es, 2), back), 1)
    ensures Permitted(es', 2, allowed)
    ensures var n, n' := NetRun(es, 2), NetRun(es', 2); var s' := MachineOf(n', back);
            Moved(n, n', back, s') && Measured(s', 2)
  {
    es' := FailedSend(es, back, data, MILLISECOND, 2, allowed);
  }

  lemma NotAsked(v: View, q: nat, t: Time, interval: Interval)
    requires 0 < q <= 2 && (q + 1) % interval != 0
    requires v.rtt == 1 && v.lastSeqNum == q && |v.unacked| < q
    ensures Mark(v, t).lastSeqNum == q + 1 && !RequestsAckEvery(Mark(v, t), interval)
  {
  }

  lemma UnframedSend(es: seq<NetEvent>, back: Link, data: Bytes, q: nat, interval: Interval, allowed: Allowed)
    returns (es': seq<NetEvent>)
    requires 0 < q <= 2 && (q + 1) % interval != 0 && Permitted(es, interval, allowed) && data in allowed.sent
    requires Measured(MachineOf(NetRun(es, interval), back), q)
    ensures Permitted(es', interval, allowed)
    ensures var n, n' := NetRun(es, interval), NetRun(es', interval);
            && Moved(n, n', back, MachineOf(n', back)) && Datagram2(back.owner, back.peer, data) in n'.wire
  {
    NotAsked(MachineOf(NetRun(es, interval), back).v, q, MILLISECOND, interval);
    es' := FailedSend(es, back, data, MILLISECOND, interval, allowed);
  }

  /** Under any interval but 1 the peer's next send, or the one after it, asks for no ACK. */
  lemma RawSend(es: seq<NetEvent>, back: Link, data: Bytes, interval: Interval, allowed: Allowed)
    returns (es': seq<NetEvent>)
    requires interval > 1 && Permitted(es, interval, allowed) && data in allowed.sent
    requires Measured(MachineOf(NetRun(es, interval), back), 1)
    ensures Permitted(es', interval, allowed)
    ensures var n, n' := NetRun(es, interval), NetRun(es', interval);
            && Moved(n, n', back, MachineOf(n', back)) && Datagram2(back.owner, back.peer, data) in n'.wire
  {
    if interval == 2 {
      es' := SecondSend(es, back, data, allowed);
      es' := UnframedSend(es', back, data, 2, interval, allowed);
    } else {
      es' := UnframedSend(es, back, data, 1, interval, allowed);
    }
  }

  /** The same by SendDatagram, when not every datagram2 asks for an ACK. */
  lemma UnframedResponseForgesAck(l: Link, data: Bytes, interval: Interval, allowed: Allowed)
    returns (es: seq<NetEvent>)
    requires l.owner != l.peer && interval > 1 && !Harmless(data) && data in allowed.sent
    ensures Permitted(es, interval, allowed) && !Acknowledged(NetRun(es, interval), l)
  {
    var back := Link(l.peer, l.owner);
    es := LostSends(l, Decode(data).ackedSeqNum, data, interval, allowed);
    es := FirstAck(es, back, data, interval, allowed);
    es := RawSend(es, back, data, interval, allowed);
    es := ForgeryAcknowledges(es, l, data, interval, allowed);
  }

  /** ACKs are sound in every run that gives no other payloads to the calls. */
  ghost predicate AcksSound(interval: Interval, allowed: Allowed) {
    forall es, l | Permitted(es, interval, allowed) :: Acknowledged(NetRun(es, interval), l)
  }

  /** Under any AckRequestInterval, ACKs are sound if and only if no payload that may be forced looks like a response
      with a number other than 0, and none that may be given to SendDatagram either unless the interval is 1. */
  lemma SoundExactlyWhenHarmless(interval: Interval, allowed: Allowed)
    requires allowed.sent != iset{}
    ensures AcksSound(interval, allowed) <==> HarmlessWhenRaw(interval, allowed)
  {
    var l := Link("a", "b");
    if HarmlessWhenRaw(interval, allowed) {
      forall es, k | Permitted(es, interval, allowed) ensures Acknowledged(NetRun(es, interval), k) {
        RunSound(es, interval, allowed);
      }
    } else if exists data :: data in allowed.forced && !Harmless(data) {
      var data :| data in allowed.forced && !Harmless(data);
      var sent :| sent in allowed.sent;
      var es := ForcedResponseForgesAck(l, data, sent, interval, allowed);
    } else {
      var data :| data in allowed.sent && !Harmless(data);
      var es := UnframedResponseForgesAck(l, data, interval, allowed);
    }
  }
}
