/** Whole calls as runs of the machine: an uninterrupted SendDatagram or ForceDatagram2 does what its sequential
    description says, and two goroutines together can skip every identity refresh that the counter asks for. */
module SendCalls {
  import opened Base
  import opened SenderSpec
  import opened SendMachine
  import SendSolo

  predicate InOrder(now: Time, t: SendTimes) {
    now <= t.check <= t.mark <= t.track <= t.done
  }

  /** The send itself and, when it succeeds, the counter. */
  function CallEnd(g: Goroutine, sent: Time, done: Time, ok: bool): seq<Event> {
    [Resume(g, sent, ok)] + if ok then [Resume(g, done, true)] else []
  }

  /** Marking a datagram2 and framing it. */
  function CallMark(s: System, g: Goroutine, t: SendTimes): seq<Event> {
    [Resume(g, t.mark, true)] + [Resume(g, t.mark, true)]
    + if RequestsAck(Mark(s.v, t.mark)) then [Resume(g, t.track, true)] else []
  }

  function SendCall(s: System, g: Goroutine, t: SendTimes, ok: bool): seq<Event> {
    if UsesDatagram2(s.v, t.check)
    then [StartSend(g, t.check)] + CallMark(s, g, t) + CallEnd(g, t.track, t.done, ok)
    else [StartSend(g, t.check)] + CallEnd(g, t.check, t.done, ok)
  }

  lemma CallEnds(s: System, g: Goroutine, sent: Time, done: Time, ok: bool)
    requires g in s.pcs && (s.pcs[g].AtSend2? || s.pcs[g].AtSend3?) && s.now <= sent <= done
    ensures var s' := After(s, CallEnd(g, sent, done, ok));
            s'.v == (if ok then Increment(s.v, done) else s.v) && s'.pcs == s.pcs - {g}
  {
    var s1 := AfterOne(s, [], Resume(g, sent, ok));
    if ok {
      var s2 := AfterOne(s, [Resume(g, sent, ok)], Resume(g, done, true));
    } else {
      assert CallEnd(g, sent, done, ok) == [] + [Resume(g, sent, ok)];
    }
  }

  lemma CallMarks(s: System, g: Goroutine, t: SendTimes)
    requires g in s.pcs && s.pcs[g].AtMark? && s.now <= t.mark <= t.track
    ensures var s', m := After(s, CallMark(s, g, t)), Mark(s.v, t.mark);
            && s'.v == (if RequestsAck(m) then Track(m, m.lastSeqNum, t.track) else m)
            && g in s'.pcs && s'.pcs[g] == AtSend2(m.lastSeqNum, |s.h.marks| + 1, RequestsAck(m))
            && s'.now <= t.track && s'.pcs - {g} == s.pcs - {g}
  {
    var s1 := AfterOne(s, [], Resume(g, t.mark, true));
    var es := [Resume(g, t.mark, true)];
    var s2 := AfterOne(s, es, Resume(g, t.mark, true));
    es := es + [Resume(g, t.mark, true)];
    if RequestsAck(Mark(s.v, t.mark)) {
      var s3 := AfterOne(s, es, Resume(g, t.track, true));
    }
  }

  /** Run without interruption, the sections of SendDatagram make up its sequential description. */
  lemma UninterruptedSend(s: System, g: Goroutine, t: SendTimes, ok: bool)
    requires g !in s.pcs && InOrder(s.now, t)
    ensures var s' := After(s, SendCall(s, g, t, ok));
            s'.v == Sent(s.v, t, ok) && s'.pcs == s.pcs
  {
    var s1 := AfterOne(s, [], StartSend(g, t.check));
    if UsesDatagram2(s.v, t.check) {
      CallMarks(s1, g, t);
      AfterConcat(s, [StartSend(g, t.check)], CallMark(s, g, t));
      var s2 := After(s1, CallMark(s, g, t));
      CallEnds(s2, g, t.track, t.done, ok);
      AfterConcat(s, [StartSend(g, t.check)] + CallMark(s, g, t), CallEnd(g, t.track, t.done, ok));
    } else {
      CallEnds(s1, g, t.check, t.done, ok);
      AfterConcat(s, [StartSend(g, t.check)], CallEnd(g, t.check, t.done, ok));
    }
  }

  lemma AfterOne(s: System, es: seq<Event>, e: Event) returns (s': System)
    ensures s' == After(s, es + [e]) == Step(After(s, es), e)
  {
    AfterSnoc(s, es, e);
    s' := Step(After(s, es), e);
  }

  lemma UninterruptedForce(s: System, g: Goroutine, t: SendTimes, ok: bool)
    requires g !in s.pcs && InOrder(s.now, t)
    ensures var es := [StartForced(g, t.mark)] + [Resume(g, t.mark, ok)]
                      + if ok then [Resume(g, t.done, true)] else [];
            After(s, es).v == Forced(s.v, t, ok) && After(s, es).pcs == s.pcs
  {
    var s1 := AfterOne(s, [], StartForced(g, t.mark));
    var s2 := AfterOne(s, [StartForced(g, t.mark)], Resume(g, t.mark, ok));
    var es := [StartForced(g, t.mark)] + [Resume(g, t.mark, ok)];
    if ok {
      var s3 := AfterOne(s, es, Resume(g, t.done, true));
    } else {
      assert es + [] == es;
    }
  }

  /** Successful calls, one after the other. */
  function SentAll(v: View, ts: seq<SendTimes>): View {
    if ts == [] then v else Sent(SentAll(v, ts[..|ts| - 1]), ts[|ts| - 1], true)
  }

  /** A forced datagram2 that goes out starts the cycle afresh: while the clock asks for nothing, the next 499
      sends are datagram3s and the one after them is a datagram2. */
  lemma {:induction false} ForcedRestartsCycle(v: View, t: SendTimes, ts: seq<SendTimes>, now: Time)
    requires |ts| < REPLIABLE_INTERVAL
    requires forall i | 0 <= i < |ts| :: !RefreshDue(Some(t.mark), ts[i].check)
    ensures var v' := SentAll(Forced(v, t, true), ts);
            && v'.counter == 1 + |ts| && v'.lastDatagram2 == Some(t.mark)
            && v'.lastSeqNum == Succ(v.lastSeqNum)
            && (!RefreshDue(Some(t.mark), now) ==>
                  (UsesDatagram2(v', now) <==> |ts| == REPLIABLE_INTERVAL - 1))
  {
    if ts != [] {
      var n := |ts| - 1;
      ForcedRestartsCycle(v, t, ts[..n], ts[n].check);
    }
  }

  /** Nothing under way, time standing still since the only mark, and the counter off its boundary. */
  predicate Coasting(s: System) {
    && s.pcs == map[] && s.now == 0 && s.v.lastDatagram2 == Some(0)
    && s.v.counter % REPLIABLE_INTERVAL != 0
  }

  /** Goroutines 0 and 1 only, calling SendDatagram only, at one instant, every send successful. */
  predicate TwoSenders(es: seq<Event>) {
    forall e | e in es :: e.now == 0 && (e.StartSend? || (e.Resume? && e.ok)) && e.g < 2
  }

  lemma CoastingRun() returns (es: seq<Event>)
    ensures TwoSenders(es) && Coasting(Run(es))
  {
    var t := SendTimes(0, 0, 0, 0);
    es := SendCall(Start, 0, t, true);
    UninterruptedSend(Start, 0, t, true);
    ClockStands(Start, es);
  }

  lemma {:induction false} ClockStands(s: System, es: seq<Event>)
    requires s.now == 0 && forall e | e in es :: e.now == 0
    ensures After(s, es).now == 0
  {
    if es != [] {
      ClockStands(s, es[..|es| - 1]);
    }
  }

  /** Both goroutines choose datagram3 at the same counter. */
  lemma BothChoose(es: seq<Event>) returns (es': seq<Event>)
    requires TwoSenders(es) && Coasting(Run(es))
    ensures TwoSenders(es')
    ensures var s, s' := Run(es), Run(es'); var d := |s.h.decisions|;
            && s'.pcs == map[0 := AtSend3(d), 1 := AtSend3(d + 1)] && s'.now == 0
            && s'.v == s.v && s'.h.run3 == s.h.run3
  {
    var s1 := AfterOne(Start, es, StartSend(0, 0));
    es' := es + [StartSend(0, 0)];
    var s2 := AfterOne(Start, es', StartSend(1, 0));
    es' := es' + [StartSend(1, 0)];
  }

  lemma BothDeliver(es: seq<Event>, d: nat) returns (es': seq<Event>)
    requires TwoSenders(es) && Run(es).pcs == map[0 := AtSend3(d), 1 := AtSend3(d + 1)] && Run(es).now == 0
    ensures TwoSenders(es')
    ensures var s, s' := Run(es), Run(es');
            && s'.pcs == map[0 := AtIncrement, 1 := AtIncrement] && s'.now == 0
            && s'.v == s.v && s'.h.run3 == s.h.run3 + 2
  {
    var s3 := AfterOne(Start, es, Resume(0, 0, true));
    es' := es + [Resume(0, 0, true)];
    var s4 := AfterOne(Start, es', Resume(1, 0, true));
    es' := es' + [Resume(1, 0, true)];
  }

  /** One datagram3 by each of the goroutines 0 and 1, both deciding before either counts. */
  lemma BothSend(es: seq<Event>) returns (es': seq<Event>)
    requires TwoSenders(es) && Coasting(Run(es))
    ensures TwoSenders(es')
    ensures var s, s' := Run(es), Run(es');
            && s'.pcs == map[] && s'.now == 0 && s'.v.lastDatagram2 == Some(0)
            && s'.v.counter == Succ(Succ(s.v.counter)) && s'.h.run3 == s.h.run3 + 2
  {
    es' := BothChoose(es);
    es' := BothDeliver(es', |Run(es).h.decisions|);
    var s5 := AfterOne(Start, es', Resume(0, 0, true));
    es' := es' + [Resume(0, 0, true)];
    var s6 := AfterOne(Start, es', Resume(1, 0, true));
    es' := es' + [Resume(1, 0, true)];
  }

  lemma OneSends(es: seq<Event>) returns (es': seq<Event>)
    requires TwoSenders(es) && Coasting(Run(es))
    ensures TwoSenders(es')
    ensures var s, s' := Run(es), Run(es');
            && s'.pcs == map[] && s'.now == 0 && s'.v.lastDatagram2 == Some(0)
            && s'.v.counter == Succ(s.v.counter) && s'.h.run3 == s.h.run3 + 1
  {
    var s1 := AfterOne(Start, es, StartSend(0, 0));
    es' := es + [StartSend(0, 0)];
    var s2 := AfterOne(Start, es', Resume(0, 0, true));
    es' := es' + [Resume(0, 0, true)];
    var s3 := AfterOne(Start, es', Resume(0, 0, true));
    es' := es' + [Resume(0, 0, true)];
  }

  /** With two goroutines sending to one destination no bound on datagram3s in a row exists short of the
      time trigger: whenever the counter is about to reach a boundary, both pass it together. */
  lemma {:induction false} TwoGoroutinesSkip(n: nat) returns (es: seq<Event>)
    ensures TwoSenders(es) && Coasting(Run(es)) && Run(es).h.run3 >= n
  {
    if n == 0 {
      es := CoastingRun();
    } else {
      es := TwoGoroutinesSkip(n - 1);
      if Succ(Run(es).v.counter) % REPLIABLE_INTERVAL == 0 {
        es := BothSend(es);
      } else {
        es := OneSends(es);
      }
    }
  }

  // ----- The exact limit -----

  /** At no point of the run are more than c calls under way. */
  predicate AtOnce(es: seq<Event>, c: nat) {
    es != [] ==> AtOnce(es[..|es| - 1], c) && |Run(es).pcs| <= c
  }

  lemma SecondCall(s: System, e: Event)
    requires SendSolo.OneCall(s) && s.pcs != map[] && Enabled(s, e) && (e.StartSend? || e.StartForced?)
    ensures |Step(s, e).pcs| > 1
  {
    var g :| g in s.pcs;
    assert {g, e.g} <= Step(s, e).pcs.Keys && |{g, e.g}| == 2;
    SubsetSize({g, e.g}, Step(s, e).pcs.Keys);
  }

  lemma {:induction false} OneAtATimeCounts(es: seq<Event>)
    requires AtOnce(es, 1)
    ensures SendSolo.OneCall(Run(es)) && SendSolo.RunCounted(Run(es))
  {
    if es != [] {
      var s, e := Run(es[..|es| - 1]), es[|es| - 1];
      OneAtATimeCounts(es[..|es| - 1]);
      if SendSolo.SoloStep(s, e) {
        SendSolo.StepCounts(s, e);
      } else if Enabled(s, e) {
        SecondCall(s, e);
        assert false;
      }
    }
  }

  lemma TwoSendersStep(s: System, e: Event)
    requires s.pcs.Keys <= {0, 1} && (e.StartSend? || e.Resume?) && e.g < 2
    ensures Step(s, e).pcs.Keys <= {0, 1}
  {
  }

  lemma {:induction false} TwoSendersAtOnce(es: seq<Event>)
    requires TwoSenders(es)
    ensures Run(es).pcs.Keys <= {0, 1} && forall c: nat | c >= 2 :: AtOnce(es, c)
  {
    if es != [] {
      var front, e := es[..|es| - 1], es[|es| - 1];
      assert TwoSenders(front) by {
        assert forall x | x in front :: x in es;
      }
      assert e in es;
      TwoSendersAtOnce(front);
      TwoSendersStep(Run(front), e);
      SubsetSize(Run(es).pcs.Keys, {0, 1});
    }
  }

  ghost predicate Bounded(c: nat) {
    forall es | AtOnce(es, c) :: Run(es).h.run3 < REPLIABLE_INTERVAL
  }

  lemma {:induction false} FewerAtOnce(es: seq<Event>, c: nat, d: nat)
    requires AtOnce(es, c) && c <= d
    ensures AtOnce(es, d)
  {
    if es != [] {
      FewerAtOnce(es[..|es| - 1], c, d);
    }
  }

  /** All runs with at most c calls to one destination under way at once keep to 499 datagram3s in a row if and only
      if c is at most 1. */
  lemma BoundedExactlyOneAtATime(c: nat)
    ensures Bounded(c) <==> c <= 1
  {
    if c <= 1 {
      forall es | AtOnce(es, c) ensures Run(es).h.run3 < REPLIABLE_INTERVAL {
        FewerAtOnce(es, c, 1);
        OneAtATimeCounts(es);
        var s := Run(es);
        if s.pcs != map[] {
          var g :| g in s.pcs;
          assert SendSolo.PcCounted(s, s.pcs[g]);
        }
      }
    } else {
      var es := TwoGoroutinesSkip(REPLIABLE_INTERVAL);
      TwoSendersAtOnce(es);
      assert AtOnce(es, c);
    }
  }
}
