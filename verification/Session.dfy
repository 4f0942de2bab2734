/** The sending side of a hybrid2 session, with the sender states of all destinations, and the handling of
    received datagram2s (hybrid2/sender.go, hybrid2/receiver.go, hybrid2/session.go). */
module Session {
  import opened Base
  import opened AckCodec
  import Spec = SenderSpec
  import opened SenderStates

  /** What is handed to a SAM subsession. */
  datatype Wire =
    | Datagram2(payload: Bytes)
    | Datagram3(payload: Bytes)

  datatype Outcome = Done | SessionClosed | SendFailed

  datatype PathStats = PathStats(
    rtt: U64,
    quality: real,
    unackedCount: nat,
    lastDatagram2: Option<Time>,
    lastAcked: Option<Time>,
    totalSent: U64,
    totalAcked: U64)

  /** What the receiver's application gets of what arrives. */
  function Arrives(w: Wire): Option<Bytes> {
    match w
    case Datagram2(payload) => Forwarded(payload)
    case Datagram3(payload) => Some(payload)
  }

  /** What SendDatagram puts on the wire from a state, under any AckRequestInterval and under the configured one. */
  function WireEvery(v: Spec.View, t: Spec.SendTimes, data: Bytes, interval: nat): Wire
    requires interval > 0
  {
    if !Spec.UsesDatagram2(v, t.check) then Datagram3(data)
    else
      var m := Spec.Mark(v, t.mark);
      Datagram2(if Spec.RequestsAckEvery(m, interval) then EncodeRequest(m.lastSeqNum, data) else data)
  }

  function WireFor(v: Spec.View, t: Spec.SendTimes, data: Bytes): Wire {
    WireEvery(v, t, data, ACK_REQUEST_INTERVAL)
  }

  /** The four minutes are over. */
  predicate Due(last: Option<Time>, now: Time) {
    last.None? || now - last.value >= 4 * MINUTE
  }

  /** SendDatagram in terms of the state before: a datagram2 goes out on every 500th count and when the refresh is
      due, under the next number, with which it is framed and outstanding; otherwise the bare payload goes out as a
      datagram3. The counter moves on success only. */
  lemma SendIs(v: Spec.View, t: Spec.SendTimes, data: Bytes, ok: bool)
    ensures var v', wire, n := Spec.Sent(v, t, ok), WireFor(v, t, data), (v.lastSeqNum + 1) % TWO64;
            && (if v.counter % 500 == 0 || Due(v.lastDatagram2, t.check) then
                  && wire.Datagram2? && Decode(wire.payload) == Request(n, data)
                  && v'.lastSeqNum == n && v'.unacked == v.unacked[n := t.track] && v'.lastDatagram2 == Some(t.mark)
                else
                  && wire == Datagram3(data)
                  && v'.lastSeqNum == v.lastSeqNum && v'.unacked == v.unacked && v'.lastDatagram2 == v.lastDatagram2)
            && v'.counter == (if ok then (v.counter + 1) % TWO64 else v.counter)
            && v'.lastSend == (if ok then Some(t.done) else v.lastSend)
            && v'.lastAcked == v.lastAcked && v'.rtt == v.rtt && v'.quality == v.quality
  {
    var m := Spec.Mark(v, t.mark);
    Spec.EveryDatagram2RequestsAck(m);
    DecodeInvertsEncoders(m.lastSeqNum, data);
  }

  /** ForceDatagram2 likewise: a new mark and number whatever happens, nothing tracked, and the counter at 1 after a
      success. */
  lemma ForceIs(v: Spec.View, t: Spec.SendTimes, ok: bool)
    ensures var v' := Spec.Forced(v, t, ok);
            && v'.lastSeqNum == (v.lastSeqNum + 1) % TWO64 && v'.lastDatagram2 == Some(t.mark)
            && v'.counter == (if ok then 1 else v.counter)
            && v'.lastSend == (if ok then Some(t.done) else v.lastSend)
            && v'.unacked == v.unacked && v'.lastAcked == v.lastAcked && v'.rtt == v.rtt && v'.quality == v.quality
  {
  }

  /** Under any interval a payload given to SendDatagram arrives unchanged unless it goes out as a datagram2 that
      asks for no ACK and looks like an ACK message. */
  lemma TransparentExactlyWhen(v: Spec.View, t: Spec.SendTimes, data: Bytes, interval: nat)
    requires interval > 0
    ensures Arrives(WireEvery(v, t, data, interval)) == Some(data) <==>
            || !Spec.UsesDatagram2(v, t.check)
            || Spec.RequestsAckEvery(Spec.Mark(v, t.mark), interval)
            || !MarkerShaped(data)
  {
    FramedTransparency(Spec.Mark(v, t.mark).lastSeqNum, data);
    UnframedTransparency(data);
  }

  /** Every payload given to SendDatagram that arrives reaches the application unchanged, by either path. */
  lemma SendIsTransparent(v: Spec.View, t: Spec.SendTimes, data: Bytes)
    ensures Arrives(WireFor(v, t, data)) == Some(data)
  {
    Spec.EveryDatagram2RequestsAck(Spec.Mark(v, t.mark));
    TransparentExactlyWhen(v, t, data, ACK_REQUEST_INTERVAL);
  }

  /** One given to ForceDatagram2, which is sent raw, does exactly when it is shorter than 9 bytes or does not start
      with one of the two markers. */
  lemma ForceIsTransparentUnlessMarked(data: Bytes)
    ensures Arrives(Datagram2(data)) == Some(data) <==>
            |data| < 9 || (data[0] != 0xAC && data[0] != 0xAD)
  {
    UnframedTransparency(data);
  }

  class HybridSession {
    var closed: bool
    var senderStates: map<Addr, SenderState>

    ghost predicate Valid()
      reads this, senderStates.Values
    {
      forall a | a in senderStates :: senderStates[a].destination == a
    }

    /** The state for a destination, initial while there is none. */
    ghost function ViewOf(a: Addr): Spec.View
      reads this, senderStates.Values
    {
      if a in senderStates then senderStates[a].View() else Spec.Initial
    }

    constructor ()
      ensures Valid() && !closed && senderStates == map[]
    {
      closed, senderStates := false, map[];
    }

    method EnsureSessionOpen() returns (ok: bool)
      ensures ok <==> !closed
    {
      ok := !closed;
    }

    method GetSenderState(dest: Addr) returns (state: SenderState)
      requires Valid()
      modifies `senderStates
      ensures Valid() && dest in senderStates && senderStates[dest] == state
      ensures dest in old(senderStates) ==> senderStates == old(senderStates)
      ensures dest !in old(senderStates) ==> fresh(state) && senderStates == old(senderStates)[dest := state]
      ensures forall a :: ViewOf(a) == old(ViewOf(a))
    {
      if dest in senderStates {
        return senderStates[dest];
      }
      state := new SenderState(dest);
      senderStates := senderStates[dest := state];
    }

    /** Only the state of `dest` has changed since the call began. */
    twostate predicate OnlyChanged(dest: Addr)
      reads this, senderStates.Values
    {
      forall a | a != dest :: ViewOf(a) == old(ViewOf(a))
    }

    /** The sections of SendDatagram that prepare a datagram2. */
    method PrepareDatagram2(state: SenderState, data: Bytes, t: Spec.SendTimes) returns (payload: Bytes)
      modifies state
      ensures var m := Spec.Mark(old(state.View()), t.mark);
              && state.View() == (if Spec.RequestsAck(m) then Spec.Track(m, m.lastSeqNum, t.track) else m)
              && payload == (if Spec.RequestsAck(m) then EncodeRequest(m.lastSeqNum, data) else data)
    {
      var seqNum := state.MarkDatagram2Sent(t.mark);
      var request := state.ShouldRequestAck();
      if request {
        payload := EncodeRequest(seqNum, data);
        state.TrackUnackedDatagram(seqNum, t.track);
      } else {
        payload := data;
      }
    }

    /** `ok` is the outcome of the SAM send. On success and on failure the state of the destination moves as
        specified and no other state does. */
    method SendDatagram(data: Bytes, dest: Addr, t: Spec.SendTimes, ok: bool)
      returns (outcome: Outcome, sent: Option<Wire>)
      requires Valid()
      modifies this, senderStates.Values
      ensures Valid() && closed == old(closed)
      ensures closed ==> outcome == SessionClosed && sent == None && senderStates == old(senderStates)
      ensures !closed ==>
                && outcome == (if ok then Done else SendFailed)
                && ViewOf(dest) == Spec.Sent(old(ViewOf(dest)), t, ok) && OnlyChanged(dest)
                && sent == Some(WireFor(old(ViewOf(dest)), t, data))
      ensures sent.Some? && sent.value.Datagram2? ==>
                var n := ViewOf(dest).lastSeqNum;
                && n == Succ(old(ViewOf(dest)).lastSeqNum) && n in ViewOf(dest).unacked
                && Decode(sent.value.payload) == Request(n, data)
      ensures fresh(senderStates.Values - old(senderStates.Values))
      ensures closed ==> forall a :: ViewOf(a) == old(ViewOf(a))
    {
      var open := EnsureSessionOpen();
      if !open {
        return SessionClosed, None;
      }
      SendIs(ViewOf(dest), t, data, ok);
      var state := GetSenderState(dest);
      assert forall a | a in senderStates && a != dest :: senderStates[a] != state;
      var wire := Send(state, data, t, ok);
      sent := Some(wire);
      outcome := if ok then Done else SendFailed;
    }

    /** The branches of SendDatagram on a state, and the counter after a success. */
    method Send(state: SenderState, data: Bytes, t: Spec.SendTimes, ok: bool) returns (wire: Wire)
      modifies state
      ensures state.View() == Spec.Sent(old(state.View()), t, ok)
      ensures wire == WireFor(old(state.View()), t, data)
    {
      var useDatagram2 := state.ShouldUseDatagram2(t.check);
      if useDatagram2 {
        var payload := PrepareDatagram2(state, data, t);
        wire := Datagram2(payload);
      } else {
        wire := Datagram3(data);
      }
      if ok {
        var _ := state.IncrementCounter(t.done);
      }
    }

    method ForceDatagram2(data: Bytes, dest: Addr, t: Spec.SendTimes, ok: bool)
      returns (outcome: Outcome, sent: Option<Wire>)
      requires Valid()
      modifies this, senderStates.Values
      ensures Valid() && closed == old(closed)
      ensures closed ==> outcome == SessionClosed && sent == None && senderStates == old(senderStates)
      ensures !closed ==>
                && outcome == (if ok then Done else SendFailed)
                && ViewOf(dest) == Spec.Forced(old(ViewOf(dest)), t, ok) && OnlyChanged(dest)
                && sent == Some(Datagram2(data))
      ensures closed ==> forall a :: ViewOf(a) == old(ViewOf(a))
    {
      var open := EnsureSessionOpen();
      if !open {
        return SessionClosed, None;
      }
      ghost var before := ViewOf(dest);
      var state := GetSenderState(dest);
      assert forall a | a in senderStates && a != dest :: senderStates[a] != state;
      var _ := state.MarkDatagram2Sent(t.mark);
      assert state.View() == Spec.Forced(before, t, false);
      sent := Some(Datagram2(data));
      if !ok {
        return SendFailed, sent;
      }
      state.ResetCounter(1, t.done);
      outcome := Done;
    }

    /** A received datagram2: `data` is what is forwarded, `reply` the ACK response that goes back. */
    method ProcessDatagram2Ack(source: Addr, raw: Bytes, now: Time)
      returns (data: Option<Bytes>, reply: Option<Bytes>)
      requires Valid()
      modifies this, senderStates.Values
      ensures Valid() && closed == old(closed) && data == Forwarded(raw)
      ensures reply == match Decode(raw)
                       case Request(seqNum, _) => if closed then None else Some(EncodeResponse(seqNum))
                       case _ => None
      ensures ViewOf(source) == match Decode(raw)
                                case Response(seqNum) => Spec.Acked(old(ViewOf(source)), seqNum, now)
                                case _ => old(ViewOf(source))
      ensures OnlyChanged(source)
    {
      reply := None;
      match Decode(raw)
      case Response(seqNum) =>
        var state := GetSenderState(source);
        state.ProcessAck(seqNum, now);
        data := None;
      case Request(seqNum, payload) =>
        var open := EnsureSessionOpen();
        if open {
          reply := Some(EncodeResponse(seqNum));
        }
        data := Some(payload);
      case Plain(payload) => data := Some(payload);
    }

    /** Sweeps every state, in any order, each at its own reading of the clock. */
    method CleanupStaleUnacked(clock: Addr -> Time)
      requires Valid()
      modifies senderStates.Values
      ensures Valid()
      ensures forall a | a in senderStates :: ViewOf(a) == Spec.Swept(old(ViewOf(a)), clock(a))
    {
      var unseen := senderStates.Keys;
      while unseen != {}
        invariant unseen <= senderStates.Keys && Valid()
        invariant forall a | a in senderStates ::
                    ViewOf(a) == if a in unseen then old(ViewOf(a)) else Spec.Swept(old(ViewOf(a)), clock(a))
      {
        var a :| a in unseen;
        assert senderStates[a] in senderStates.Values;
        var _ := senderStates[a].CleanupStaleUnacked(clock(a));
        unseen := unseen - {a};
      }
    }

    method GetPathStats(dest: Addr) returns (stats: Option<PathStats>)
      ensures stats.Some? <==> dest in senderStates
      ensures stats.Some? ==>
                var v, p := ViewOf(dest), stats.value;
                && p.rtt == v.rtt && p.quality == v.quality && p.unackedCount == |v.unacked|
                && p.lastDatagram2 == v.lastDatagram2 && p.totalSent == v.lastSeqNum && p.totalAcked == v.lastAcked
                && Spec.ReportedLastAck(v, p.lastAcked)
    {
      if dest !in senderStates {
        return None;
      }
      var s := senderStates[dest];
      var lastAcked := s.OldestUnacked();
      stats := Some(PathStats(s.rtt, s.pathQuality, |s.unackedDatagrams|, s.lastDatagram2Time, lastAcked,
                              s.lastDatagram2SeqNum, s.lastAckedSeqNum));
    }

    /** The flag of Close; what follows it is in the Lifecycle module. */
    method Close() returns (first: bool)
      modifies `closed
      ensures closed && first == !old(closed)
    {
      first := !closed;
      closed := true;
    }
  }

  /** Number n is the last assigned and no longer outstanding, and LastAckedSeqNum has reached it. */
  predicate AckedBy(v: Spec.View, n: U64) {
    v.lastSeqNum == n && n !in v.unacked && v.lastAcked >= n
  }

  /** What comes back to a sender whose datagram2 arrives: the peer's response carries its number, which is then
      outstanding no longer, and LastAckedSeqNum has reached it. */
  lemma AckReturns(v: Spec.View, t: Spec.SendTimes, data: Bytes, ok: bool, now: Time)
    requires WireFor(v, t, data).Datagram2?
    ensures var n, v' := (v.lastSeqNum + 1) % TWO64, Spec.Sent(v, t, ok);
            && Decode(WireFor(v, t, data).payload) == Request(n, data)
            && Decode(EncodeResponse(n)) == Response(n)
            && n in v'.unacked && AckedBy(Spec.Acked(v', n, now), n)
  {
    SendIs(v, t, data, ok);
    DecodeInvertsEncoders((v.lastSeqNum + 1) % TWO64, data);
  }

  /** A request from `a` arrives at `b`, and its response at `a`. */
  method Answer(a: HybridSession, b: HybridSession, aAddr: Addr, bAddr: Addr, payload: Bytes, now: Time)
      returns (delivered: Option<Bytes>)
    requires a.Valid() && b.Valid() && a != b && a.senderStates.Values !! b.senderStates.Values
    requires !b.closed && Decode(payload).Request?
    modifies a, a.senderStates.Values, b, b.senderStates.Values
    ensures delivered == Some(Decode(payload).data) && a.Valid()
    ensures a.ViewOf(bAddr) == Spec.Acked(old(a.ViewOf(bAddr)), Decode(payload).seqNum, now)
  {
    DecodeInvertsEncoders(Decode(payload).seqNum, []);
    var reply;
    delivered, reply := b.ProcessDatagram2Ack(aAddr, payload, now);
    assert a.Valid() && a.ViewOf(bAddr) == old(a.ViewOf(bAddr));
    var _, _ := a.ProcessDatagram2Ack(bAddr, reply.value, now);
  }

  /** Two sessions: what `a` sends to `b` is given to `b`, and the reply of `b`, if there is one, to `a`. */
  method Exchange(a: HybridSession, b: HybridSession, aAddr: Addr, bAddr: Addr, data: Bytes, t: Spec.SendTimes,
                  ok: bool, now: Time) returns (delivered: Option<Bytes>)
    requires a.Valid() && b.Valid() && a != b && a.senderStates.Values !! b.senderStates.Values
    requires !a.closed && !b.closed
    modifies a, a.senderStates.Values, b, b.senderStates.Values
    ensures delivered == Some(data) && a.Valid()
    ensures var v, v' := old(a.ViewOf(bAddr)), a.ViewOf(bAddr);
            if v.counter % 500 == 0 || Due(v.lastDatagram2, t.check) then
              AckedBy(v', (v.lastSeqNum + 1) % TWO64)
            else v'.lastSeqNum == v.lastSeqNum && v'.unacked == v.unacked && v'.lastAcked == v.lastAcked
  {
    ghost var v := a.ViewOf(bAddr);
    SendIs(v, t, data, ok);
    var _, sent := a.SendDatagram(data, bAddr, t, ok);
    match sent.value
    case Datagram3(payload) => delivered := Some(payload);
    case Datagram2(payload) =>
      AckReturns(v, t, data, ok, now);
      assert a.ViewOf(bAddr) == Spec.Sent(v, t, ok);
      delivered := Answer(a, b, aAddr, bAddr, payload, now);
  }
}
