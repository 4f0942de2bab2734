/** SendDatagram and ForceDatagram2 for one destination as a small-step machine: any number of goroutines,
    one mutex section per step, with incoming ACKs and timeout sweeps anywhere in between. */
module SendMachine {
  import opened Base
  import opened SenderSpec
  import opened UnackedFifo

  type Goroutine = nat

  /** Where a goroutine stands between two sections. `mark` numbers the datagram2 marks from 1. */
  datatype Pc =
    | AtMark(checked: Time)
    | AtRequest(seqNum: U64, mark: nat)
    | AtTrack(seqNum: U64, mark: nat)
    | AtSend2(seqNum: U64, mark: nat, framed: bool)
    | AtSend3(decision: nat)
    | AtIncrement
    | ForcedAtSend(seqNum: U64, mark: nat)
    | ForcedAtReset

  datatype Event =
    | StartSend(g: Goroutine, now: Time)
    | StartForced(g: Goroutine, now: Time)
    | Resume(g: Goroutine, now: Time, ok: bool)
    | AckArrives(seqNum: U64, now: Time)
    | Sweep(now: Time)

  datatype MarkRecord = MarkRecord(time: Time, seqNum: U64)

  /** A datagram3 decision, with the number of marks and of successful datagram2 sends before it. */
  datatype Decision = Decision(time: Time, marks: nat, ok2: nat)

  /** What has happened so far; the code keeps none of it. run3 counts the successful datagram3s since the
      last successful datagram2, samples lists the round trips, in ms, of the ACKs that matched. */
  datatype History = History(
    marks: seq<MarkRecord>,
    decisions: seq<Decision>,
    sent2: set<nat>,
    sent3: set<nat>,
    ok2: nat,
    ok3: nat,
    run3: nat,
    samples: seq<U64>,
    lastAttempt: Option<Time>,
    ledger: Ledger)

  datatype System = System(v: View, pcs: map<Goroutine, Pc>, now: Time, h: History)

  const Start: System := System(Initial, map[], 0, History([], [], {}, {}, 0, 0, 0, [], None, EmptyLedger))

  predicate Enabled(s: System, e: Event) {
    && e.now >= s.now
    && (e.StartSend? || e.StartForced? ==> e.g !in s.pcs)
    && (e.Resume? ==> e.g in s.pcs)
  }

  function Move(s: System, g: Goroutine, pc: Pc): System {
    s.(pcs := s.pcs[g := pc])
  }

  function Finish(s: System, g: Goroutine): System {
    s.(pcs := s.pcs - {g})
  }

  /** shouldUseDatagram2 and the branch on its answer. */
  function Choose(s: System, g: Goroutine): System {
    var h := s.h.(lastAttempt := Some(s.now));
    if UsesDatagram2(s.v, s.now) then Move(s.(h := h), g, AtMark(s.now))
    else
      var d := Decision(s.now, |h.marks|, h.ok2);
      Move(s.(h := h.(decisions := h.decisions + [d])), g, AtSend3(|h.decisions|))
  }

  function MarkNow(s: System): System {
    var v := Mark(s.v, s.now);
    s.(v := v, h := s.h.(marks := s.h.marks + [MarkRecord(s.now, v.lastSeqNum)]))
  }

  function TrackNow(s: System, seqNum: U64): System {
    s.(v := Track(s.v, seqNum, s.now), h := s.h.(ledger := Enqueue(s.h.ledger, Entry(seqNum, s.now))))
  }

  function Delivered2(s: System, mark: nat): System {
    s.(h := s.h.(sent2 := s.h.sent2 + {mark}, ok2 := s.h.ok2 + 1, run3 := 0))
  }

  function Delivered3(s: System, decision: nat): System {
    s.(h := s.h.(sent3 := s.h.sent3 + {decision}, ok3 := s.h.ok3 + 1, run3 := s.h.run3 + 1))
  }

  /** The next section of goroutine g; `ok` is the outcome of a send. */
  function Continue(s: System, g: Goroutine, ok: bool): System
    requires g in s.pcs
  {
    match s.pcs[g]
    case AtMark(_) =>
      var s' := MarkNow(s);
      Move(s', g, AtRequest(s'.v.lastSeqNum, |s'.h.marks|))
    case AtRequest(seqNum, mark) =>
      if RequestsAck(s.v) then Move(s, g, AtTrack(seqNum, mark)) else Move(s, g, AtSend2(seqNum, mark, false))
    case AtTrack(seqNum, mark) => Move(TrackNow(s, seqNum), g, AtSend2(seqNum, mark, true))
    case AtSend2(_, mark, _) => if ok then Move(Delivered2(s, mark), g, AtIncrement) else Finish(s, g)
    case AtSend3(decision) => if ok then Move(Delivered3(s, decision), g, AtIncrement) else Finish(s, g)
    case AtIncrement => Finish(s.(v := Increment(s.v, s.now)), g)
    case ForcedAtSend(_, mark) => if ok then Move(Delivered2(s, mark), g, ForcedAtReset) else Finish(s, g)
    case ForcedAtReset => Finish(s.(v := Reset(s.v, 1, s.now)), g)
  }

  function StartForcedNow(s: System, g: Goroutine): System {
    var s' := MarkNow(s);
    Move(s'.(h := s'.h.(lastAttempt := Some(s.now))), g, ForcedAtSend(s'.v.lastSeqNum, |s'.h.marks|))
  }

  function AckNow(s: System, seqNum: U64): System {
    var sample := if seqNum in s.v.unacked then [SampleMs(Elapsed(s.v.unacked[seqNum], s.now))] else [];
    s.(v := Acked(s.v, seqNum, s.now),
    h := s.h.(ledger := Dequeue(s.h.ledger, seqNum), samples := s.h.samples + sample))
  }

  function SweepNow(s: System): System {
    s.(v := Swept(s.v, s.now), h := s.h.(ledger := Expire(s.h.ledger, s.now)))
  }

  /** An event that is not enabled is skipped, so every list of events is a run. */
  function Step(s: System, e: Event): System {
    if !Enabled(s, e) then s
    else
      var t := s.(now := e.now);
      match e
      case StartSend(g, _) => Choose(t, g)
      case StartForced(g, _) => StartForcedNow(t, g)
      case Resume(g, _, ok) => Continue(t, g, ok)
      case AckArrives(seqNum, _) => AckNow(t, seqNum)
      case Sweep(_) => SweepNow(t)
  }

  function After(s: System, es: seq<Event>): System {
    if es == [] then s else Step(After(s, es[..|es| - 1]), es[|es| - 1])
  }

  function Run(es: seq<Event>): System {
    After(Start, es)
  }

  lemma AfterSnoc(s: System, es: seq<Event>, e: Event)
    ensures After(s, es + [e]) == Step(After(s, es), e)
  {
    assert (es + [e])[..|es|] == es;
  }

  lemma {:induction false} AfterConcat(s: System, es: seq<Event>, more: seq<Event>)
    ensures After(s, es + more) == After(After(s, es), more)
  {
    if more == [] {
      assert es + more == es;
    } else {
      var front := more[..|more| - 1];
      AfterConcat(s, es, front);
      assert (es + more)[..|es + more| - 1] == es + front;
    }
  }
}
