/** The map of unacknowledged datagram2s, scanned and deleted from in arbitrary order, behaves as a FIFO queue. */
module UnackedFifo {
  import opened Base
  import opened SenderSpec

  datatype Entry = Entry(seqNum: U64, sent: Time)

  /** Oldest first. */
  type Queue = seq<Entry>

  predicate Ordered(q: Queue) {
    forall i, j | 0 <= i < j < |q| :: q[i].seqNum < q[j].seqNum && q[i].sent <= q[j].sent
  }

  function Contents(q: Queue): map<U64, Time> {
    if q == [] then map[] else Contents(q[1..])[q[0].seqNum := q[0].sent]
  }

  /** The number of entries an ACK of seqNum takes off the front. */
  function CountThrough(q: Queue, seqNum: U64): (n: nat)
    ensures n <= |q|
  {
    if q == [] || q[0].seqNum > seqNum then 0 else 1 + CountThrough(q[1..], seqNum)
  }

  /** The number of entries a sweep takes off the front. */
  function CountStale(q: Queue, now: Time): (n: nat)
    ensures n <= |q|
  {
    if q == [] || !Stale(q[0].sent, now) then 0 else 1 + CountStale(q[1..], now)
  }

  lemma {:induction false} Position(q: Queue, k: U64) returns (i: nat)
    requires k in Contents(q)
    ensures i < |q| && q[i] == Entry(k, Contents(q)[k])
  {
    if k == q[0].seqNum {
      i := 0;
    } else {
      var j := Position(q[1..], k);
      i := j + 1;
    }
  }

  lemma {:induction false} EntryIn(q: Queue, i: nat)
    requires Ordered(q) && i < |q|
    ensures q[i].seqNum in Contents(q) && Contents(q)[q[i].seqNum] == q[i].sent
  {
    if i > 0 {
      EntryIn(q[1..], i - 1);
      assert q[0].seqNum < q[i].seqNum;
    }
  }

  lemma {:induction false} Size(q: Queue)
    requires Ordered(q)
    ensures |Contents(q)| == |q|
  {
    if q != [] {
      Size(q[1..]);
      if q[0].seqNum in Contents(q[1..]) {
        var i := Position(q[1..], q[0].seqNum);
      }
    }
  }

  /** Every entry is as new as the front, and the front is not repeated. */
  lemma FrontIsOldest(q: Queue)
    requires Ordered(q) && q != []
    ensures forall k | k in Contents(q) :: k >= q[0].seqNum && Contents(q)[k] >= q[0].sent
    ensures q[0].seqNum !in Contents(q[1..])
  {
    forall k | k in Contents(q)
      ensures k >= q[0].seqNum && Contents(q)[k] >= q[0].sent
    {
      var i := Position(q, k);
    }
    if q[0].seqNum in Contents(q[1..]) {
      var i := Position(q[1..], q[0].seqNum);
    }
  }

  lemma {:induction false} TrackAppends(q: Queue, e: Entry)
    requires Ordered(q + [e])
    ensures Contents(q + [e]) == Contents(q)[e.seqNum := e.sent]
  {
    if q == [] {
      assert q + [e] == [e];
    } else {
      assert Ordered(q[1..] + [e]) by {
        assert q[1..] + [e] == (q + [e])[1..];
      }
      TrackAppends(q[1..], e);
      assert (q + [e])[1..] == q[1..] + [e];
      assert (q + [e])[0].seqNum < (q + [e])[|q|].seqNum;
    }
  }

  lemma {:induction false} NewerIsSuffix(q: Queue, seqNum: U64)
    requires Ordered(q)
    ensures Newer(Contents(q), seqNum) == Contents(q[CountThrough(q, seqNum)..])
  {
    if q == [] {
    } else if q[0].seqNum > seqNum {
      FrontIsOldest(q);
    } else {
      NewerIsSuffix(q[1..], seqNum);
      assert q[CountThrough(q, seqNum)..] == q[1..][CountThrough(q[1..], seqNum)..];
    }
  }

  lemma {:induction false} RecentIsSuffix(q: Queue, now: Time)
    requires Ordered(q)
    ensures Recent(Contents(q), now) == Contents(q[CountStale(q, now)..])
  {
    if q == [] {
    } else if !Stale(q[0].sent, now) {
      FrontIsOldest(q);
    } else {
      RecentIsSuffix(q[1..], now);
      FrontIsOldest(q);
      assert q[CountStale(q, now)..] == q[1..][CountStale(q[1..], now)..];
    }
  }

  lemma {:induction false} CountThroughIs(q: Queue, i: nat)
    requires Ordered(q) && i < |q|
    ensures CountThrough(q, q[i].seqNum) == i + 1
  {
    if i == 0 {
      assert |q| > 1 ==> q[1].seqNum > q[0].seqNum;
    } else {
      CountThroughIs(q[1..], i - 1);
    }
  }

  /** An ACK of the i-th oldest entry removes it and everything older, and nothing else; an ACK of any other
      number removes nothing. */
  lemma AckPopsPrefix(v: View, q: Queue, seqNum: U64, now: Time)
    requires Ordered(q) && v.unacked == Contents(q)
    ensures forall i | 0 <= i < |q| && q[i].seqNum == seqNum ::
              Acked(v, seqNum, now).unacked == Contents(q[i + 1..])
    ensures (forall i | 0 <= i < |q| :: q[i].seqNum != seqNum) ==> Acked(v, seqNum, now) == v
  {
    forall i | 0 <= i < |q| && q[i].seqNum == seqNum
      ensures Acked(v, seqNum, now).unacked == Contents(q[i + 1..])
    {
      EntryIn(q, i);
      CountThroughIs(q, i);
      NewerIsSuffix(q, seqNum);
    }
    if seqNum in Contents(q) {
      var i := Position(q, seqNum);
    }
  }

  /** A sweep that counts n timeouts removes the n oldest entries. */
  lemma SweepPopsPrefix(v: View, q: Queue, now: Time)
    requires Ordered(q) && v.unacked == Contents(q)
    ensures TimedOut(v, now) == CountStale(q, now)
    ensures Swept(v, now).unacked == Contents(q[TimedOut(v, now)..])
  {
    RecentIsSuffix(q, now);
    Size(q);
    Size(q[CountStale(q, now)..]);
  }

  /** The time GetPathStats reports is that of the front of the queue. */
  lemma OldestIsFront(v: View, q: Queue, reported: Option<Time>)
    requires Ordered(q) && v.unacked == Contents(q) && ReportedLastAck(v, reported)
    ensures reported == if q == [] then v.lastDatagram2 else Some(q[0].sent)
  {
    if q != [] {
      EntryIn(q, 0);
      var k :| k in v.unacked && v.unacked[k] == reported.value;
      FrontIsOldest(q);
    }
  }

  /** A plain FIFO with a count of every way an entry can leave it. */
  datatype Ledger = Ledger(queue: Queue, tracked: nat, acked: nat, implied: nat, timedOut: nat)

  const EmptyLedger: Ledger := Ledger([], 0, 0, 0, 0)

  function Enqueue(l: Ledger, e: Entry): Ledger {
    l.(queue := l.queue + [e], tracked := l.tracked + 1)
  }

  function Dequeue(l: Ledger, seqNum: U64): Ledger {
    var n := CountThrough(l.queue, seqNum);
    if n > 0 && l.queue[n - 1].seqNum == seqNum
    then l.(queue := l.queue[n..], acked := l.acked + 1, implied := l.implied + n - 1)
    else l
  }

  function Expire(l: Ledger, now: Time): Ledger {
    var n := CountStale(l.queue, now);
    l.(queue := l.queue[n..], timedOut := l.timedOut + n)
  }

  predicate Represents(l: Ledger, unacked: map<U64, Time>) {
    && Ordered(l.queue)
    && unacked == Contents(l.queue)
    && l.tracked == l.acked + l.implied + l.timedOut + |l.queue|
  }

  lemma TrackSimulates(l: Ledger, v: View, seqNum: U64, now: Time)
    requires Represents(l, v.unacked)
    requires forall i | 0 <= i < |l.queue| :: l.queue[i].seqNum < seqNum && l.queue[i].sent <= now
    ensures Represents(Enqueue(l, Entry(seqNum, now)), Track(v, seqNum, now).unacked)
  {
    TrackAppends(l.queue, Entry(seqNum, now));
  }

  lemma DequeueHit(l: Ledger, i: nat)
    requires Ordered(l.queue) && i < |l.queue|
    ensures Dequeue(l, l.queue[i].seqNum) ==
            l.(queue := l.queue[i + 1..], acked := l.acked + 1, implied := l.implied + i)
  {
    CountThroughIs(l.queue, i);
  }

  lemma DequeueMiss(l: Ledger, seqNum: U64)
    requires Ordered(l.queue) && seqNum !in Contents(l.queue)
    ensures Dequeue(l, seqNum) == l
  {
    var n := CountThrough(l.queue, seqNum);
    if n > 0 && l.queue[n - 1].seqNum == seqNum {
      EntryIn(l.queue, n - 1);
    }
  }

  lemma AckSimulates(l: Ledger, v: View, seqNum: U64, now: Time) returns (n: nat)
    requires Represents(l, v.unacked)
    ensures Represents(Dequeue(l, seqNum), Acked(v, seqNum, now).unacked)
    ensures Dequeue(l, seqNum).acked == l.acked + (if seqNum in v.unacked then 1 else 0)
    ensures n <= |l.queue| && Dequeue(l, seqNum).queue == l.queue[n..]
    ensures var l' := Dequeue(l, seqNum);
            l'.implied == l.implied + (if n > 0 then n - 1 else 0) && l'.timedOut == l.timedOut
    ensures forall i | 0 <= i < |Dequeue(l, seqNum).queue| ::
              Dequeue(l, seqNum).queue[i].seqNum > seqNum || seqNum !in v.unacked
  {
    AckPopsPrefix(v, l.queue, seqNum, now);
    if seqNum in v.unacked {
      var i := Position(l.queue, seqNum);
      DequeueHit(l, i);
      n := i + 1;
    } else {
      DequeueMiss(l, seqNum);
      n := 0;
      assert l.queue[0..] == l.queue;
    }
  }

  lemma SweepSimulates(l: Ledger, v: View, now: Time)
    requires Represents(l, v.unacked)
    ensures Represents(Expire(l, now), Swept(v, now).unacked)
    ensures Expire(l, now).timedOut == l.timedOut + TimedOut(v, now)
    ensures Expire(l, now).implied == l.implied && Expire(l, now).acked == l.acked
  {
    SweepPopsPrefix(v, l.queue, now);
  }

  datatype AckEvent = AckEvent(seqNum: U64, now: Time)

  function AckAll(v: View, acks: seq<AckEvent>): View {
    if acks == [] then v
    else
      var last := acks[|acks| - 1];
      Acked(AckAll(v, acks[..|acks| - 1]), last.seqNum, last.now)
  }

  function Numbers(acks: seq<AckEvent>): set<U64> {
    set a | a in acks :: a.seqNum
  }

  /** r is v after ACKs of the outstanding numbers `hit`. */
  ghost predicate WindowAfter(v: View, r: View, hit: set<U64>) {
    && (forall k :: k in r.unacked <==> k in v.unacked && forall a | a in hit :: k > a)
    && (forall k | k in r.unacked :: r.unacked[k] == v.unacked[k])
    && r.lastAcked >= v.lastAcked
    && (forall a | a in hit :: r.lastAcked >= a)
    && (r.lastAcked == v.lastAcked || r.lastAcked in hit)
  }

  /** The result of a list of ACKs in terms of the set of its numbers that were outstanding. */
  lemma {:induction false} AckAllResult(v: View, acks: seq<AckEvent>)
    ensures WindowAfter(v, AckAll(v, acks), Numbers(acks) * v.unacked.Keys)
  {
    if acks != [] {
      var front, last := acks[..|acks| - 1], acks[|acks| - 1];
      AckAllResult(v, front);
      assert acks == front + [last];
      assert Numbers(acks) * v.unacked.Keys == Numbers(front) * v.unacked.Keys + {last.seqNum} * v.unacked.Keys;
      OneAckWindow(v, AckAll(v, front), Numbers(front) * v.unacked.Keys, last);
    }
  }

  lemma {:induction false} OneAckWindow(v: View, r: View, hit: set<U64>, a: AckEvent)
    requires WindowAfter(v, r, hit) && hit <= v.unacked.Keys
    ensures WindowAfter(v, Acked(r, a.seqNum, a.now), hit + {a.seqNum} * v.unacked.Keys)
  {
    if a.seqNum in v.unacked {
      assert {a.seqNum} * v.unacked.Keys == {a.seqNum};
      if a.seqNum in r.unacked {
        MatchedWindow(v, r, hit, a);
      } else {
        var b :| b in hit && b >= a.seqNum;
        CoveredWindow(v, r, hit, a.seqNum, b);
      }
    } else {
      assert {a.seqNum} * v.unacked.Keys == {};
      assert a.seqNum !in r.unacked;
      assert hit + {} == hit;
    }
  }

  /** The ACK of a number still outstanding. */
  lemma MatchedWindow(v: View, r: View, hit: set<U64>, a: AckEvent)
    requires WindowAfter(v, r, hit) && a.seqNum in r.unacked
    ensures WindowAfter(v, Acked(r, a.seqNum, a.now), hit + {a.seqNum})
  {
    var r' := Acked(r, a.seqNum, a.now);
    forall k ensures k in r'.unacked <==> k in v.unacked && forall b | b in hit + {a.seqNum} :: k > b {
      assert k in r'.unacked <==> k in r.unacked && k > a.seqNum;
      if k in v.unacked && forall b | b in hit + {a.seqNum} :: k > b {
        assert a.seqNum in hit + {a.seqNum};
        assert forall b | b in hit :: b in hit + {a.seqNum};
      }
    }
  }

  /** The ACK of a number that an earlier one has covered. */
  lemma CoveredWindow(v: View, r: View, hit: set<U64>, seqNum: U64, b: U64)
    requires WindowAfter(v, r, hit) && b in hit && b >= seqNum
    ensures WindowAfter(v, r, hit + {seqNum})
  {
    forall k ensures k in r.unacked <==> k in v.unacked && forall x | x in hit + {seqNum} :: k > x {
      if forall x | x in hit + {seqNum} :: k > x {
        assert forall x | x in hit :: x in hit + {seqNum};
      }
    }
  }

  /** Duplicates, unknown numbers and order do not matter. */
  lemma AckOrderIrrelevant(v: View, acks: seq<AckEvent>, acks': seq<AckEvent>)
    requires Numbers(acks) == Numbers(acks')
    ensures AckAll(v, acks).unacked == AckAll(v, acks').unacked
    ensures AckAll(v, acks).lastAcked == AckAll(v, acks').lastAcked >= v.lastAcked
  {
    AckAllResult(v, acks);
    AckAllResult(v, acks');
    WindowUnique(v, AckAll(v, acks), AckAll(v, acks'), Numbers(acks) * v.unacked.Keys);
  }

  lemma WindowUnique(v: View, r: View, r': View, hit: set<U64>)
    requires WindowAfter(v, r, hit) && WindowAfter(v, r', hit)
    ensures r.unacked == r'.unacked && r.lastAcked == r'.lastAcked >= v.lastAcked
  {
    assert r.unacked.Keys == r'.unacked.Keys;
  }
}
