/** What holds in every interleaving of concurrent SendDatagram and ForceDatagram2 calls to one destination. */
module SendSafety {
  import opened Base
  import opened SenderSpec
  import opened SendMachine
  import PathMetrics

  predicate MarksKept(s: System) {
    && s.v.lastSeqNum == |s.h.marks| % TWO64
    && s.v.lastDatagram2 == (if s.h.marks == [] then None else Some(s.h.marks[|s.h.marks| - 1].time))
    && (forall i | 0 <= i < |s.h.marks| :: s.h.marks[i].seqNum == (i + 1) % TWO64 && s.h.marks[i].time <= s.now)
    && (forall i, j | 0 <= i < j < |s.h.marks| :: s.h.marks[i].time <= s.h.marks[j].time)
  }

  /** A datagram3 is decided only after some datagram2 went out, and less than the refresh interval after
      the latest mark. */
  predicate DecisionOk(h: History, d: Decision) {
    && 0 < d.marks <= |h.marks|
    && 0 < d.ok2 <= h.ok2
    && 0 <= d.time - h.marks[d.marks - 1].time < REPLIABLE_TIME_INTERVAL
  }

  predicate DecisionsOk(s: System) {
    forall i | 0 <= i < |s.h.decisions| :: DecisionOk(s.h, s.h.decisions[i]) && s.h.decisions[i].time <= s.now
  }

  predicate NumberOk(h: History, seqNum: U64, mark: nat) {
    0 < mark <= |h.marks| && seqNum == h.marks[mark - 1].seqNum
  }

  predicate PcOk(h: History, now: Time, pc: Pc) {
    match pc
    case AtMark(checked) => checked <= now
    case AtRequest(seqNum, mark) => NumberOk(h, seqNum, mark)
    case AtTrack(seqNum, mark) => NumberOk(h, seqNum, mark)
    case AtSend2(seqNum, mark, _) => NumberOk(h, seqNum, mark)
    case AtSend3(decision) => decision < |h.decisions| && h.ok2 > 0
    case AtIncrement => h.ok2 > 0
    case ForcedAtSend(seqNum, mark) => NumberOk(h, seqNum, mark)
    case ForcedAtReset => h.ok2 > 0
  }

  predicate PcsOk(s: System) {
    forall g | g in s.pcs :: PcOk(s.h, s.now, s.pcs[g])
  }

  predicate SentOk(h: History) {
    && (forall m | m in h.sent2 :: 0 < m <= |h.marks|)
    && (forall d | d in h.sent3 :: d < |h.decisions|)
  }

  predicate QualityOk(s: System) {
    && 0.0 <= s.v.quality <= 1.0
    && (s.v.quality == 0.0 <==> s.h.samples == [])
    && PathMetrics.Samples(s.h.samples, 0, PathMetrics.MAX_SAMPLE)
    && s.v.rtt == PathMetrics.Average(s.h.samples)
  }

  predicate Safe(s: System) {
    && MarksKept(s)
    && (s.v.counter != 0 ==> s.h.ok2 > 0)
    && (s.h.ok2 > 0 ==> s.h.marks != [])
    && DecisionsOk(s)
    && PcsOk(s)
    && SentOk(s.h)
    && QualityOk(s)
  }

  /** h' extends h. */
  predicate Grows(h: History, h': History) {
    h.marks <= h'.marks && h.decisions <= h'.decisions && h.ok2 <= h'.ok2
  }

  lemma PcGrows(h: History, h': History, now: Time, now': Time, pc: Pc)
    requires PcOk(h, now, pc) && Grows(h, h') && now <= now'
    ensures PcOk(h', now', pc)
  {
  }

  /** Moving one goroutine keeps the others where they were. */
  lemma PcsGrow(s: System, s': System, g: Goroutine)
    requires PcsOk(s) && Grows(s.h, s'.h) && s.now <= s'.now
    requires forall a | a in s'.pcs && a != g :: a in s.pcs && s'.pcs[a] == s.pcs[a]
    requires g in s'.pcs ==> PcOk(s'.h, s'.now, s'.pcs[g])
    ensures PcsOk(s')
  {
    forall a | a in s'.pcs ensures PcOk(s'.h, s'.now, s'.pcs[a]) {
      if a != g {
        PcGrows(s.h, s'.h, s.now, s'.now, s.pcs[a]);
      }
    }
  }

  lemma MarkKeeps(s: System)
    requires Safe(s)
    ensures Safe(MarkNow(s)) && Grows(s.h, MarkNow(s).h)
  {
    var s' := MarkNow(s);
    assert s'.h.marks[|s.h.marks|] == MarkRecord(s.now, s'.v.lastSeqNum);
    PcsKept(s, s');
  }

  lemma MoveKeeps(s: System, g: Goroutine, pc: Pc)
    requires Safe(s) && PcOk(s.h, s.now, pc)
    ensures Safe(Move(s, g, pc)) && Safe(Finish(s, g))
  {
    PcsGrow(s, Move(s, g, pc), g);
    PcsGrow(s, Finish(s, g), g);
  }

  lemma HistoryKeeps(s: System, h: History)
    requires Safe(s) && Grows(s.h, h)
    requires h.marks == s.h.marks && h.samples == s.h.samples && SentOk(h) && DecisionsOk(s.(h := h))
    requires h.ok2 > 0 ==> h.marks != []
    ensures Safe(s.(h := h))
  {
    PcsKept(s, s.(h := h));
  }

  lemma PcsKept(s: System, s': System)
    requires PcsOk(s) && Grows(s.h, s'.h) && s.now <= s'.now && s'.pcs == s.pcs
    ensures PcsOk(s')
  {
    forall a | a in s'.pcs ensures PcOk(s'.h, s'.now, s'.pcs[a]) {
      PcGrows(s.h, s'.h, s.now, s'.now, s.pcs[a]);
    }
  }

  lemma ChooseKeeps(s: System, g: Goroutine)
    requires Safe(s) && g !in s.pcs
    ensures Safe(Choose(s, g))
  {
    var h := s.h.(lastAttempt := Some(s.now));
    if !UsesDatagram2(s.v, s.now) {
      h := h.(decisions := h.decisions + [Decision(s.now, |h.marks|, h.ok2)]);
    }
    HistoryKeeps(s, h);
    MoveKeeps(s.(h := h), g, Choose(s, g).pcs[g]);
  }

  lemma Delivery2Keeps(s: System, g: Goroutine, mark: nat, pc: Pc)
    requires Safe(s) && 0 < mark <= |s.h.marks| && (pc.AtIncrement? || pc.ForcedAtReset?)
    ensures Safe(Move(Delivered2(s, mark), g, pc))
  {
    HistoryKeeps(s, Delivered2(s, mark).h);
    MoveKeeps(Delivered2(s, mark), g, pc);
  }

  lemma Delivery3Keeps(s: System, g: Goroutine, decision: nat)
    requires Safe(s) && decision < |s.h.decisions| && s.h.ok2 > 0
    ensures Safe(Move(Delivered3(s, decision), g, AtIncrement))
  {
    HistoryKeeps(s, Delivered3(s, decision).h);
    MoveKeeps(Delivered3(s, decision), g, AtIncrement);
  }

  /** The sections that decide nothing about the outcome of a send. */
  lemma PrepareKeeps(s: System, g: Goroutine, ok: bool)
    requires Safe(s) && g in s.pcs && (s.pcs[g].AtMark? || s.pcs[g].AtRequest? || s.pcs[g].AtTrack?)
    ensures Safe(Continue(s, g, ok))
  {
    assert PcOk(s.h, s.now, s.pcs[g]);
    match s.pcs[g]
    case AtMark(_) =>
      MarkKeeps(s);
      MoveKeeps(MarkNow(s), g, Continue(s, g, ok).pcs[g]);
    case AtRequest(seqNum, mark) =>
      MoveKeeps(s, g, Continue(s, g, ok).pcs[g]);
    case AtTrack(seqNum, mark) =>
      PcsKept(s, TrackNow(s, seqNum));
      MoveKeeps(TrackNow(s, seqNum), g, AtSend2(seqNum, mark, true));
  }

  lemma CountKeeps(s: System, g: Goroutine, v: View)
    requires Safe(s) && s.h.ok2 > 0 && v == s.v.(counter := v.counter, lastSend := v.lastSend)
    ensures Safe(Finish(s.(v := v), g))
  {
    MoveKeeps(s.(v := v), g, AtIncrement);
  }

  lemma ContinueKeeps(s: System, g: Goroutine, ok: bool)
    requires Safe(s) && g in s.pcs
    ensures Safe(Continue(s, g, ok))
  {
    assert PcOk(s.h, s.now, s.pcs[g]);
    if !ok {
      MoveKeeps(s, g, s.pcs[g]);
    }
    match s.pcs[g]
    case AtSend2(_, mark, _) => if ok { Delivery2Keeps(s, g, mark, AtIncrement); }
    case AtSend3(decision) => if ok { Delivery3Keeps(s, g, decision); }
    case ForcedAtSend(_, mark) => if ok { Delivery2Keeps(s, g, mark, ForcedAtReset); }
    case AtIncrement => CountKeeps(s, g, Increment(s.v, s.now));
    case ForcedAtReset => CountKeeps(s, g, Reset(s.v, 1, s.now));
    case _ => PrepareKeeps(s, g, ok);
  }

  lemma AckKeepsQuality(s: System, seqNum: U64)
    requires QualityOk(s)
    ensures QualityOk(AckNow(s, seqNum))
  {
    var s' := AckNow(s, seqNum);
    if seqNum in s.v.unacked {
      assert s'.h.samples[..|s.h.samples|] == s.h.samples;
      assert s'.v.rtt == NextRtt(s.v.rtt, s'.h.samples[|s.h.samples|]);
    } else {
      assert s'.h.samples == s.h.samples;
    }
  }

  lemma AckKeeps(s: System, seqNum: U64)
    requires Safe(s)
    ensures Safe(AckNow(s, seqNum))
  {
    AckKeepsQuality(s, seqNum);
    PcsKept(s, AckNow(s, seqNum));
  }

  lemma SweepKeeps(s: System)
    requires Safe(s)
    ensures Safe(SweepNow(s))
  {
    PathMetrics.LoweredStaysPositive(s.v.quality, TimedOut(s.v, s.now));
    PcsKept(s, SweepNow(s));
  }

  lemma StepKeeps(s: System, e: Event)
    requires Safe(s)
    ensures Safe(Step(s, e))
  {
    if Enabled(s, e) {
      var t := s.(now := e.now);
      PcsKept(s, t);
      match e
      case StartSend(g, _) => ChooseKeeps(t, g);
      case StartForced(g, _) =>
        MarkKeeps(t);
        var m := MarkNow(t);
        HistoryKeeps(m, StartForcedNow(t, g).h);
        MoveKeeps(m.(h := StartForcedNow(t, g).h), g, StartForcedNow(t, g).pcs[g]);
      case Resume(g, _, ok) => ContinueKeeps(t, g, ok);
      case AckArrives(seqNum, _) => AckKeeps(t, seqNum);
      case Sweep(_) => SweepKeeps(t);
    }
  }

  lemma {:induction false} RunIsSafe(es: seq<Event>)
    ensures Safe(Run(es))
  {
    if es != [] {
      RunIsSafe(es[..|es| - 1]);
      StepKeeps(Run(es[..|es| - 1]), es[|es| - 1]);
    }
  }

  /** No datagram3 is chosen before a datagram2 send has returned success, and every choice of a datagram3
      falls within the refresh interval of the latest mark. */
  lemma EveryDatagram3IsCovered(es: seq<Event>, i: nat)
    requires i < |Run(es).h.decisions|
    ensures var h := Run(es).h; var d := h.decisions[i];
            && d.ok2 > 0 && 0 < d.marks <= |h.marks|
            && 0 <= d.time - h.marks[d.marks - 1].time < REPLIABLE_TIME_INTERVAL
  {
    RunIsSafe(es);
  }

  /** The same at the moment of the choice: a call that chooses datagram3 finds a success behind it and the last mark
      less than four minutes old. */
  lemma Datagram3Chosen(es: seq<Event>, g: Goroutine, now: Time)
    requires g !in Run(es).pcs && now >= Run(es).now && Step(Run(es), StartSend(g, now)).pcs[g].AtSend3?
    ensures var h := Run(es).h;
            h.ok2 > 0 && h.marks != [] && 0 <= now - h.marks[|h.marks| - 1].time < 4 * MINUTE
  {
    RunIsSafe(es);
  }

  /** Any two marks fewer than 2^64 apart carry different sequence numbers. */
  lemma SequenceNumbersDistinct(es: seq<Event>, i: nat, j: nat)
    requires i < j < |Run(es).h.marks| && j - i < TWO64
    ensures Run(es).h.marks[i].seqNum != Run(es).h.marks[j].seqNum
  {
    RunIsSafe(es);
    assert (j + 1) - (i + 1) < TWO64;
  }

  /** The check for a zero LastDatagram2Time is only reached after a mark, so it never fires. */
  lemma ZeroTimeNeverReached(es: seq<Event>)
    ensures var v := Run(es).v; v.counter % REPLIABLE_INTERVAL != 0 ==> v.lastDatagram2.Some?
  {
    RunIsSafe(es);
  }

  /** In every run the quality score is a score, 0 exactly while no ACK has matched, and the RTT lies between the
      least and the greatest of the round trips measured. */
  lemma PathStatsInRange(es: seq<Event>, low: nat, high: nat)
    requires PathMetrics.Samples(Run(es).h.samples, low, high) && high <= PathMetrics.MAX_SAMPLE
    ensures var s := Run(es);
            && 0.0 <= s.v.quality <= 1.0
            && (s.v.quality == 0.0 <==> s.h.samples == [])
            && if s.h.samples == [] then s.v.rtt == 0 else low <= s.v.rtt <= high
  {
    RunIsSafe(es);
    if Run(es).h.samples != [] {
      PathMetrics.AverageStaysInRange(Run(es).h.samples, low, high);
    }
  }
}
