/** The mutable per-destination sender state (hybrid2/types.go, hybrid2/sender.go). Every method is one
    section under the state's mutex. */
module SenderStates {
  import opened Base
  import Spec = SenderSpec

  class SenderState {
    const destination: Addr
    var counter: U64
    var lastSendTime: Option<Time>
    var lastDatagram2Time: Option<Time>
    var lastDatagram2SeqNum: U64
    var lastAckedSeqNum: U64
    var unackedDatagrams: map<U64, Time>
    var rtt: U64
    var pathQuality: real

    ghost function View(): Spec.View
      reads this
    {
      Spec.View(counter, lastSendTime, lastDatagram2Time, lastDatagram2SeqNum, lastAckedSeqNum,
                unackedDatagrams, rtt, pathQuality)
    }

    constructor (destination: Addr)
      ensures this.destination == destination && View() == Spec.Initial
    {
      this.destination := destination;
      counter, lastSendTime, lastDatagram2Time := 0, None, None;
      lastDatagram2SeqNum, lastAckedSeqNum, unackedDatagrams := 0, 0, map[];
      rtt, pathQuality := 0, 0.0;
    }

    method ShouldUseDatagram2(now: Time) returns (yes: bool)
      ensures yes <==> Spec.UsesDatagram2(View(), now)
    {
      if counter % REPLIABLE_INTERVAL == 0 {
        return true;
      }
      if lastDatagram2Time.None? {
        return true;
      }
      yes := Elapsed(lastDatagram2Time.value, now) >= REPLIABLE_TIME_INTERVAL;
    }

    method IncrementCounter(now: Time) returns (value: U64)
      modifies this
      ensures View() == Spec.Increment(old(View()), now) && value == counter
    {
      counter := if counter == TWO64 - 1 then 0 else counter + 1;
      lastSendTime := Some(now);
      value := counter;
    }

    method MarkDatagram2Sent(now: Time) returns (seqNum: U64)
      modifies this
      ensures View() == Spec.Mark(old(View()), now) && seqNum == lastDatagram2SeqNum
    {
      lastDatagram2Time := Some(now);
      lastDatagram2SeqNum := if lastDatagram2SeqNum == TWO64 - 1 then 0 else lastDatagram2SeqNum + 1;
      seqNum := lastDatagram2SeqNum;
    }

    method ShouldRequestAck() returns (yes: bool)
      ensures yes <==> Spec.RequestsAck(View())
    {
      if rtt == 0 {
        return true;
      }
      if lastDatagram2SeqNum % ACK_REQUEST_INTERVAL == 0 {
        return true;
      }
      yes := |unackedDatagrams| >= MAX_UNACKED - 1;
    }

    method TrackUnackedDatagram(seqNum: U64, now: Time)
      modifies this
      ensures View() == Spec.Track(old(View()), seqNum, now)
    {
      unackedDatagrams := unackedDatagrams[seqNum := now];
    }

    method ProcessAck(seqNum: U64, now: Time)
      modifies this
      ensures View() == Spec.Acked(old(View()), seqNum, now)
    {
      if seqNum !in unackedDatagrams {
        return;
      }
      var sample := Spec.SampleMs(Elapsed(unackedDatagrams[seqNum], now));
      if rtt == 0 {
        rtt := sample;
      } else {
        rtt := (7 * rtt + sample) % TWO64 / 8;
      }
      if pathQuality == 0.0 {
        pathQuality := 1.0;
      } else {
        pathQuality := 0.9 * pathQuality + 0.1;
      }
      if seqNum > lastAckedSeqNum {
        lastAckedSeqNum := seqNum;
      }
      RemoveThrough(seqNum);
    }

    /** Visits the map in any order, deleting as it goes. */
    method RemoveThrough(seqNum: U64)
      modifies `unackedDatagrams
      ensures unackedDatagrams == Spec.Newer(old(unackedDatagrams), seqNum)
    {
      ghost var before := unackedDatagrams;
      var unseen := unackedDatagrams.Keys;
      while unseen != {}
        invariant unseen <= before.Keys
        invariant unackedDatagrams == map k | k in before && (k in unseen || k > seqNum) :: before[k]
      {
        var k :| k in unseen;
        unseen := unseen - {k};
        if k <= seqNum {
          unackedDatagrams := unackedDatagrams - {k};
        }
      }
    }

    method CleanupStaleUnacked(now: Time) returns (timedOut: nat)
      modifies this
      ensures View() == Spec.Swept(old(View()), now)
      ensures timedOut == Spec.TimedOut(old(View()), now)
    {
      timedOut := RemoveStale(now);
      ghost var quality := pathQuality;
      for i := 0 to timedOut
        invariant Spec.LoweredBy(quality, timedOut) == Spec.LoweredBy(pathQuality, timedOut - i)
        invariant View() == old(View()).(unacked := unackedDatagrams, quality := pathQuality)
        invariant unackedDatagrams == Spec.Recent(old(unackedDatagrams), now)
      {
        if pathQuality > 0.0 {
          pathQuality := 0.9 * pathQuality;
        }
      }
    }

    method RemoveStale(now: Time) returns (removed: nat)
      modifies `unackedDatagrams
      ensures unackedDatagrams == Spec.Recent(old(unackedDatagrams), now)
      ensures removed == |old(unackedDatagrams)| - |unackedDatagrams|
    {
      ghost var before := unackedDatagrams;
      var unseen := unackedDatagrams.Keys;
      removed := 0;
      while unseen != {}
        invariant unseen <= before.Keys
        invariant unackedDatagrams ==
                  map k | k in before && (k in unseen || !Spec.Stale(before[k], now)) :: before[k]
        invariant removed == |before| - |unackedDatagrams|
      {
        var k :| k in unseen;
        unseen := unseen - {k};
        if Elapsed(unackedDatagrams[k], now) > ACK_TIMEOUT {
          unackedDatagrams := unackedDatagrams - {k};
          removed := removed + 1;
        }
      }
    }

    method ResetCounter(value: U64, now: Time)
      modifies this
      ensures View() == Spec.Reset(old(View()), value, now)
    {
      counter := value;
      lastSendTime := Some(now);
    }

    /** The loop of GetPathStats: the time reported as the last ACK is the send time of the oldest datagram2
        still unacknowledged, and the last mark when there is none. */
    method OldestUnacked() returns (oldest: Option<Time>)
      ensures Spec.ReportedLastAck(View(), oldest)
    {
      oldest := None;
      var unseen := unackedDatagrams.Keys;
      while unseen != {}
        invariant unseen <= unackedDatagrams.Keys
        invariant oldest.None? <==> unseen == unackedDatagrams.Keys
        invariant oldest.Some? ==> oldest.value in unackedDatagrams.Values
        invariant oldest.Some? ==>
                    forall k | k in unackedDatagrams && k !in unseen :: oldest.value <= unackedDatagrams[k]
      {
        var k :| k in unseen;
        unseen := unseen - {k};
        var sendTime := unackedDatagrams[k];
        if oldest.None? || sendTime < oldest.value {
          oldest := Some(sendTime);
        }
      }
      if |unackedDatagrams| == 0 && lastDatagram2Time.Some? {
        oldest := lastDatagram2Time;
      }
    }
  }
}
