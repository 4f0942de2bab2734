/** The limit of the FIFO window: the 2^64-th mark reuses the number 0, and the order of numbers is lost. */
module SendWrap {
  import opened Base
  import opened SenderSpec
  import opened UnackedFifo
  import opened SendMachine
  import opened SendSolo

  /** One goroutine, nothing sent successfully, all at time 0. */
  predicate Idle(es: seq<Event>, marks: nat, queue: Queue) {
    var s := Run(es);
    && Solo(es) && s.pcs == map[] && s.now == 0 && s.v.counter == 0
    && |s.h.marks| == marks && s.v.lastSeqNum == marks % TWO64
    && s.h.ledger.queue == queue && s.v.unacked == Contents(queue)
  }

  lemma Next(es: seq<Event>, e: Event) returns (es': seq<Event>)
    requires Solo(es) && SoloStep(Run(es), e)
    ensures Solo(es') && Run(es') == Step(Run(es), e)
  {
    es' := es + [e];
    assert es'[..|es|] == es;
  }

  lemma FailedForce(es: seq<Event>, n: nat) returns (es': seq<Event>)
    requires Idle(es, n, [])
    ensures Idle(es', n + 1, [])
  {
    es' := Next(es, StartForced(0, 0));
    es' := Next(es', Resume(0, 0, false));
  }

  lemma {:induction false} FailedForces(n: nat) returns (es: seq<Event>)
    ensures Idle(es, n, [])
  {
    if n == 0 {
      es := [];
    } else {
      es := FailedForces(n - 1);
      es := FailedForce(es, n - 1);
    }
  }

  lemma MarkedSend(es: seq<Event>, n: nat, queue: Queue) returns (es': seq<Event>)
    requires Idle(es, n, queue)
    ensures var s, s' := Run(es), Run(es');
            && Solo(es') && s'.pcs == map[0 := AtRequest((n + 1) % TWO64, n + 1)]
            && s'.now == 0 && s'.v.counter == 0 && |s'.h.marks| == n + 1 && s'.v.lastSeqNum == (n + 1) % TWO64
            && s'.h.ledger == s.h.ledger && s'.v.unacked == s.v.unacked
  {
    es' := Next(es, StartSend(0, 0));
    es' := Next(es', Resume(0, 0, true));
  }

  /** A datagram2 that is marked and tracked, and lost. */
  lemma LostSend(es: seq<Event>, n: nat, queue: Queue) returns (es': seq<Event>)
    requires Idle(es, n, queue)
    requires Contents(queue + [Entry((n + 1) % TWO64, 0)]) == Contents(queue)[(n + 1) % TWO64 := 0]
    ensures Idle(es', n + 1, queue + [Entry((n + 1) % TWO64, 0)])
  {
    es' := MarkedSend(es, n, queue);
    es' := Next(es', Resume(0, 0, true));
    assert Run(es').pcs == map[0 := AtTrack((n + 1) % TWO64, n + 1)];
    es' := Next(es', Resume(0, 0, true));
    es' := Next(es', Resume(0, 0, false));
  }

  /** With one goroutine and 2^64 marks the window can hold the last number before the wrap and then 0; the ACK of
      the older datagram2 then drops the newer one as well, which the FIFO keeps. */
  lemma WrapBreaksFifo() returns (es: seq<Event>)
    ensures Solo(es) && |Run(es).h.marks| == TWO64
    ensures var s := Run(es);
            && s.h.ledger.queue == [Entry(TWO64 - 1, 0), Entry(0, 0)] && s.v.unacked == Contents(s.h.ledger.queue)
            && Acked(s.v, TWO64 - 1, s.now).unacked == map[] != Contents(s.h.ledger.queue[1..])
  {
    var older, newer := [Entry(TWO64 - 1, 0)], [Entry(0, 0)];
    var both := older + newer;
    assert older == [] + older && older[1..] == [] && newer[1..] == [] && both[1..] == newer;
    assert Contents(older) == Contents([])[TWO64 - 1 := 0] && Contents(newer) == Contents([])[0 := 0];
    assert Contents(both) == Contents(older)[0 := 0];
    assert 0 in Contents(newer);
    es := FailedForces(TWO64 - 2);
    es := LostSend(es, TWO64 - 2, []);
    es := LostSend(es, TWO64 - 1, older);
  }

  /** The map holds the queue, and an ACK of any entry removes it and everything older and nothing else. */
  predicate Fifo(s: System) {
    var q := s.h.ledger.queue;
    && s.v.unacked == Contents(q)
    && forall i | 0 <= i < |q| :: Acked(s.v, q[i].seqNum, s.now).unacked == Contents(q[i + 1..])
  }

  ghost predicate FifoUpTo(marks: nat) {
    forall es | Solo(es) && |Run(es).h.marks| <= marks :: Fifo(Run(es))
  }

  /** With one sending goroutine the window is a FIFO in all runs of at most n marks if and only if n < 2^64. */
  lemma FifoExactlyBelowWrap(n: nat)
    ensures FifoUpTo(n) <==> n < TWO64
  {
    if n < TWO64 {
      forall es | Solo(es) && |Run(es).h.marks| <= n ensures Fifo(Run(es)) {
        WindowOfRun(es);
        var s := Run(es);
        forall i | 0 <= i < |s.h.ledger.queue|
          ensures Acked(s.v, s.h.ledger.queue[i].seqNum, s.now).unacked == Contents(s.h.ledger.queue[i + 1..])
        {
          AckPopsPrefix(s.v, s.h.ledger.queue, s.h.ledger.queue[i].seqNum, s.now);
        }
      }
    } else {
      var es := WrapBreaksFifo();
      assert !Fifo(Run(es)) by {
        assert Run(es).h.ledger.queue[0].seqNum == TWO64 - 1;
      }
    }
  }
}
