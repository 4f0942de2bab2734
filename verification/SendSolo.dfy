/** What one sending goroutine per destination adds, with ACKs and sweeps interleaved freely: the bound on
    datagram3s in a row, the FIFO window, and the exact number of datagram2s. */
module SendSolo {
  import opened Base
  import opened SenderSpec
  import opened UnackedFifo
  import opened SendMachine
  import opened SendSafety

  /** Every call starts when no other call is under way. */
  predicate Solo(es: seq<Event>) {
    es != [] ==>
      && Solo(es[..|es| - 1])
      && (es[|es| - 1].StartSend? || es[|es| - 1].StartForced? ==> Run(es[..|es| - 1]).pcs == map[])
  }

  predicate SoloStep(s: System, e: Event) {
    e.StartSend? || e.StartForced? ==> s.pcs == map[]
  }

  predicate OneCall(s: System) {
    forall a, b | a in s.pcs && b in s.pcs :: a == b
  }

  /** The successful datagram3s since the last successful datagram2, against the counter. */
  predicate Counted(counter: U64, run3: nat) {
    var k := counter % REPLIABLE_INTERVAL;
    if k == 0 then run3 < REPLIABLE_INTERVAL else run3 < k
  }

  predicate PcCounted(s: System, pc: Pc) {
    match pc
    case AtSend3(_) => s.v.counter % REPLIABLE_INTERVAL != 0 && Counted(s.v.counter, s.h.run3)
    case AtIncrement => s.h.run3 <= s.v.counter % REPLIABLE_INTERVAL
    case ForcedAtReset => s.h.run3 == 0
    case _ => Counted(s.v.counter, s.h.run3)
  }

  predicate RunCounted(s: System) {
    && (s.pcs == map[] ==> Counted(s.v.counter, s.h.run3))
    && (forall g | g in s.pcs :: PcCounted(s, s.pcs[g]))
  }

  lemma CountedNext(counter: U64, run3: nat)
    requires run3 <= counter % REPLIABLE_INTERVAL
    ensures Counted(Succ(counter), run3)
  {
  }

  lemma OnlyCall(s: System, g: Goroutine, pc: Pc)
    requires OneCall(s) && g in s.pcs
    ensures s.pcs == map[g := s.pcs[g]]
    ensures Move(s, g, pc).pcs == map[g := pc] && Finish(s, g).pcs == map[]
  {
    forall a | a in s.pcs ensures a == g {}
  }

  lemma StepCounts(s: System, e: Event)
    requires OneCall(s) && RunCounted(s) && SoloStep(s, e)
    ensures OneCall(Step(s, e)) && RunCounted(Step(s, e))
  {
    if Enabled(s, e) && e.Resume? {
      OnlyCall(s, e.g, AtIncrement);
      assert PcCounted(s, s.pcs[e.g]);
      if s.pcs[e.g].AtIncrement? {
        CountedNext(s.v.counter, s.h.run3);
      }
    }
  }

  /** At most 499 successful datagram3s lie between two successful datagram2s, with failures, forced sends,
      time triggers and wrap-around of the counter allowed. */
  lemma {:induction false} AtMost499InARow(es: seq<Event>)
    requires Solo(es)
    ensures Run(es).h.run3 <= 499
    ensures OneCall(Run(es)) && RunCounted(Run(es))
  {
    if es != [] {
      AtMost499InARow(es[..|es| - 1]);
      StepCounts(Run(es[..|es| - 1]), es[|es| - 1]);
    }
    var s := Run(es);
    if s.pcs != map[] {
      var g :| g in s.pcs;
      assert PcCounted(s, s.pcs[g]);
    }
  }

  // ----- The window of unacknowledged datagram2s -----

  predicate WindowBounds(s: System) {
    && s.v.lastAcked <= s.v.lastSeqNum
    && forall i | 0 <= i < |s.h.ledger.queue| ::
         && s.v.lastAcked < s.h.ledger.queue[i].seqNum <= s.v.lastSeqNum
         && s.h.ledger.queue[i].sent <= s.now
  }

  /** A datagram2 that is marked but not yet tracked is newer than everything in the window. */
  predicate PcWindow(s: System, pc: Pc) {
    pc.AtRequest? || pc.AtTrack? ==>
      && pc.seqNum == s.v.lastSeqNum
      && s.v.lastAcked < s.v.lastSeqNum
      && forall i | 0 <= i < |s.h.ledger.queue| :: s.h.ledger.queue[i].seqNum < s.v.lastSeqNum
  }

  predicate WindowOk(s: System) {
    && Represents(s.h.ledger, s.v.unacked)
    && s.h.ledger.acked == |s.h.samples|
    && WindowBounds(s)
    && (forall g | g in s.pcs :: PcWindow(s, s.pcs[g]))
  }

  lemma MarkExtendsWindow(s: System)
    requires WindowOk(s) && MarksKept(s) && |s.h.marks| + 1 < TWO64
    ensures var s' := MarkNow(s);
            WindowBounds(s') && PcWindow(s', AtRequest(s'.v.lastSeqNum, |s'.h.marks|))
  {
    QuotientOf(|s.h.marks|, 0, |s.h.marks|);
    QuotientOf(|s.h.marks| + 1, 0, |s.h.marks| + 1);
  }

  lemma AckedAtMostLast(s: System, seqNum: U64)
    requires WindowOk(s) && seqNum in s.v.unacked
    ensures s.v.lastAcked < seqNum <= s.v.lastSeqNum
    ensures forall g | g in s.pcs && (s.pcs[g].AtRequest? || s.pcs[g].AtTrack?) :: seqNum < s.v.lastSeqNum
  {
    var i := Position(s.h.ledger.queue, seqNum);
    forall g | g in s.pcs && (s.pcs[g].AtRequest? || s.pcs[g].AtTrack?) ensures seqNum < s.v.lastSeqNum {
      assert PcWindow(s, s.pcs[g]);
    }
  }

  lemma AckKeepsWindow(s: System, seqNum: U64)
    requires WindowOk(s)
    ensures WindowOk(AckNow(s, seqNum))
  {
    var s' := AckNow(s, seqNum);
    var n := AckSimulates(s.h.ledger, s.v, seqNum, s.now);
    if seqNum in s.v.unacked {
      AckedAtMostLast(s, seqNum);
    }
    SuffixKeepsWindow(s, s', n);
  }

  /** Popping from the front, and acknowledging what is popped, keeps the bounds. */
  lemma SuffixKeepsWindow(s: System, s': System, n: nat)
    requires WindowOk(s) && n <= |s.h.ledger.queue| && s'.h.ledger.queue == s.h.ledger.queue[n..]
    requires s'.pcs == s.pcs && s'.now == s.now && s'.v.lastSeqNum == s.v.lastSeqNum
    requires s.v.lastAcked <= s'.v.lastAcked <= s.v.lastSeqNum
    requires forall i | 0 <= i < |s'.h.ledger.queue| :: s'.v.lastAcked < s'.h.ledger.queue[i].seqNum
    requires forall g | g in s.pcs && (s.pcs[g].AtRequest? || s.pcs[g].AtTrack?) :: s'.v.lastAcked < s.v.lastSeqNum
    ensures WindowBounds(s') && forall g | g in s'.pcs :: PcWindow(s', s'.pcs[g])
  {
    forall i | 0 <= i < |s'.h.ledger.queue|
      ensures s'.h.ledger.queue[i].seqNum <= s'.v.lastSeqNum && s'.h.ledger.queue[i].sent <= s'.now
    {
      assert s'.h.ledger.queue[i] == s.h.ledger.queue[n + i];
    }
    forall g | g in s'.pcs ensures PcWindow(s', s'.pcs[g]) {
      assert PcWindow(s, s.pcs[g]);
    }
  }

  lemma SweepKeepsWindow(s: System)
    requires WindowOk(s)
    ensures WindowOk(SweepNow(s))
  {
    var s' := SweepNow(s);
    SweepSimulates(s.h.ledger, s.v, s.now);
    forall g | g in s'.pcs ensures PcWindow(s', s'.pcs[g]) {
      assert PcWindow(s, s.pcs[g]);
    }
  }

  lemma TrackKeepsWindow(s: System, g: Goroutine, ok: bool)
    requires WindowOk(s) && OneCall(s) && g in s.pcs && s.pcs[g].AtTrack?
    ensures WindowOk(Continue(s, g, ok))
  {
    OnlyCall(s, g, AtIncrement);
    assert PcWindow(s, s.pcs[g]);
    TrackSimulates(s.h.ledger, s.v, s.pcs[g].seqNum, s.now);
  }

  lemma ContinueKeepsWindow(s: System, g: Goroutine, ok: bool)
    requires WindowOk(s) && MarksKept(s) && OneCall(s) && g in s.pcs
    requires |Continue(s, g, ok).h.marks| < TWO64
    ensures WindowOk(Continue(s, g, ok))
  {
    OnlyCall(s, g, AtIncrement);
    assert PcWindow(s, s.pcs[g]);
    match s.pcs[g]
    case AtMark(_) => MarkExtendsWindow(s);
    case AtTrack(_, _) => TrackKeepsWindow(s, g, ok);
    case _ =>
  }

  lemma StepKeepsWindow(s: System, e: Event)
    requires WindowOk(s) && MarksKept(s) && OneCall(s) && SoloStep(s, e)
    requires |Step(s, e).h.marks| < TWO64
    ensures WindowOk(Step(s, e))
  {
    if Enabled(s, e) {
      var t := s.(now := e.now);
      assert WindowOk(t) by {
        assert forall g | g in s.pcs :: PcWindow(s, s.pcs[g]) ==> PcWindow(t, t.pcs[g]);
      }
      match e
      case StartSend(g, _) =>
      case StartForced(g, _) => MarkExtendsWindow(t);
      case Resume(g, _, ok) => ContinueKeepsWindow(t, g, ok);
      case AckArrives(seqNum, _) => AckKeepsWindow(t, seqNum);
      case Sweep(_) => SweepKeepsWindow(t);
    }
  }

  lemma MarksOnlyGrow(s: System, e: Event)
    ensures |s.h.marks| <= |Step(s, e).h.marks|
  {
  }

  lemma {:induction false} WindowOfRun(es: seq<Event>)
    requires Solo(es) && |Run(es).h.marks| < TWO64
    ensures WindowOk(Run(es))
  {
    if es != [] {
      var front, e := es[..|es| - 1], es[|es| - 1];
      MarksOnlyGrow(Run(front), e);
      WindowOfRun(front);
      RunIsSafe(front);
      AtMost499InARow(front);
      StepKeepsWindow(Run(front), e);
    }
  }

  /** In every run with one sending goroutine and fewer than 2^64 marks the map holds exactly the entries of
      the FIFO queue that tracks at the back and pops at the front; its keys lie between the last acknowledged
      and the last assigned number; and every datagram2 ever tracked is accounted for once. */
  lemma WindowIsFifo(es: seq<Event>)
    requires Solo(es) && |Run(es).h.marks| < TWO64
    ensures var s := Run(es); var l := s.h.ledger;
            && Ordered(l.queue) && s.v.unacked == Contents(l.queue)
            && (forall k | k in s.v.unacked :: s.v.lastAcked < k <= s.v.lastSeqNum)
            && l.tracked == l.acked + l.implied + l.timedOut + |s.v.unacked|
            && l.acked == |s.h.samples|
  {
    WindowOfRun(es);
    var s := Run(es);
    Size(s.h.ledger.queue);
    forall k | k in s.v.unacked ensures s.v.lastAcked < k <= s.v.lastSeqNum {
      var i := Position(s.h.ledger.queue, k);
    }
  }

  // ----- The number of datagram2s -----

  /** No forced send, no failure, and no send that only the clock turns into a datagram2. */
  predicate Calm(s: System, e: Event) {
    && !e.StartForced?
    && (e.Resume? ==> e.ok)
    && (e.StartSend? && s.v.counter % REPLIABLE_INTERVAL != 0 ==> !RefreshDue(s.v.lastDatagram2, e.now))
  }

  predicate CalmRun(es: seq<Event>) {
    es != [] ==> CalmRun(es[..|es| - 1]) && Calm(Run(es[..|es| - 1]), es[|es| - 1])
  }

  /** The number of groups of 500 that n sends touch. */
  function Groups(n: nat): nat {
    (n + REPLIABLE_INTERVAL - 1) / REPLIABLE_INTERVAL
  }

  /** The datagram2s among the first n sends: one in 500, counted afresh after every 2^64 sends. */
  function Datagram2s(n: nat): nat {
    n / TWO64 * Groups(TWO64) + Groups(n % TWO64)
  }

  lemma GroupsNext(n: nat)
    ensures Groups(n + 1) == Groups(n) + if n % REPLIABLE_INTERVAL == 0 then 1 else 0
  {
  }

  lemma QuotientOf(n: nat, q: nat, c: nat)
    requires n == q * TWO64 + c && c < TWO64
    ensures n / TWO64 == q && n % TWO64 == c
  {
  }

  lemma Datagram2sNext(n: nat)
    ensures (n + 1) % TWO64 == Succ(n % TWO64)
    ensures Datagram2s(n + 1) == Datagram2s(n) + if n % TWO64 % REPLIABLE_INTERVAL == 0 then 1 else 0
  {
    var q, c := n / TWO64, n % TWO64;
    GroupsNext(c);
    if c + 1 == TWO64 {
      QuotientOf(n + 1, q + 1, 0);
      assert Datagram2s(n + 1) == (q + 1) * Groups(TWO64) + Groups(0);
      assert (q + 1) * Groups(TWO64) == q * Groups(TWO64) + Groups(TWO64);
    } else {
      QuotientOf(n + 1, q, c + 1);
    }
  }

  predicate PcTallied(s: System, pc: Pc) {
    var n := s.h.ok2 + s.h.ok3;
    match pc
    case AtIncrement => n > 0 && s.v.counter == (n - 1) % TWO64
    case AtSend3(_) => s.v.counter == n % TWO64 && s.v.counter % REPLIABLE_INTERVAL != 0
    case ForcedAtSend(_, _) => false
    case ForcedAtReset => false
    case _ => s.v.counter == n % TWO64 && s.v.counter % REPLIABLE_INTERVAL == 0
  }

  predicate Tallied(s: System) {
    && s.h.ok2 == Datagram2s(s.h.ok2 + s.h.ok3)
    && (s.pcs == map[] ==> s.v.counter == (s.h.ok2 + s.h.ok3) % TWO64)
    && (forall g | g in s.pcs :: PcTallied(s, s.pcs[g]))
  }

  lemma ContinueTallies(s: System, g: Goroutine)
    requires OneCall(s) && g in s.pcs && Tallied(s)
    ensures Tallied(Continue(s, g, true))
  {
    OnlyCall(s, g, AtIncrement);
    assert PcTallied(s, s.pcs[g]);
    Datagram2sNext(s.h.ok2 + s.h.ok3);
    if s.pcs[g].AtIncrement? {
      Datagram2sNext(s.h.ok2 + s.h.ok3 - 1);
    }
  }

  lemma StepTallies(s: System, e: Event)
    requires OneCall(s) && SoloStep(s, e) && Calm(s, e) && Tallied(s)
    requires s.v.counter % REPLIABLE_INTERVAL != 0 ==> s.v.lastDatagram2.Some?
    ensures Tallied(Step(s, e))
  {
    if Enabled(s, e) && e.Resume? {
      ContinueTallies(s.(now := e.now), e.g);
    }
  }

  /** N sends that meet no failure, no forced send and no time trigger use exactly ceil(N / 500) datagram2s
      while the counter has not wrapped, and the same number again for every full wrap. */
  lemma {:induction false} ExactDatagram2Count(es: seq<Event>)
    requires Solo(es) && CalmRun(es)
    ensures var h := Run(es).h; h.ok2 == Datagram2s(h.ok2 + h.ok3)
    ensures Tallied(Run(es))
  {
    if es != [] {
      var front := es[..|es| - 1];
      ExactDatagram2Count(front);
      AtMost499InARow(front);
      RunIsSafe(front);
      StepTallies(Run(front), es[|es| - 1]);
    }
  }
}
