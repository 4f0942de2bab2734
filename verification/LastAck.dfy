/** What GetPathStats reports as the time of the last ACK, against the time of the last ACK. */
module LastAck {
  import opened Base
  import opened SenderSpec
  import opened SendMachine

  /** The ACK answers a datagram2 that is outstanding. */
  predicate Matches(s: System, e: Event) {
    Enabled(s, e) && e.AckArrives? && e.seqNum in s.v.unacked
  }

  /** When the last ACK that answered an outstanding datagram2 arrived. */
  function LastMatch(es: seq<Event>): Option<Time> {
    if es == [] then None
    else if Matches(Run(es[..|es| - 1]), es[|es| - 1]) then Some(es[|es| - 1].now)
    else LastMatch(es[..|es| - 1])
  }

  /** The event marks a datagram2 or tracks one. */
  predicate Prepares(s: System, e: Event) {
    Enabled(s, e) && (e.StartForced? || (e.Resume? && (s.pcs[e.g].AtMark? || s.pcs[e.g].AtTrack?)))
  }

  /** When that happened in a run. */
  function PreparedAt(es: seq<Event>): set<Time> {
    if es == [] then {}
    else
      var front, e := es[..|es| - 1], es[|es| - 1];
      PreparedAt(front) + if Prepares(Run(front), e) then {e.now} else {}
  }

  /** The times the state keeps are among those. */
  predicate TimesPrepared(v: View, prepared: set<Time>) {
    && (v.lastDatagram2.Some? ==> v.lastDatagram2.value in prepared)
    && (forall k | k in v.unacked :: v.unacked[k] in prepared)
  }

  /** Nothing is outstanding or acknowledged before the first mark. */
  predicate MarkedFirst(s: System, ack: Option<Time>) {
    && (s.v.lastDatagram2.None? <==> s.h.marks == [])
    && (s.h.marks == [] ==> s.v.unacked == map[] && ack.None?)
    && (forall g | g in s.pcs && (s.pcs[g].AtTrack? || s.pcs[g].AtRequest?) :: s.h.marks != [])
  }

  lemma StepKeepsTimes(s: System, e: Event, prepared: set<Time>)
    requires TimesPrepared(s.v, prepared)
    ensures TimesPrepared(Step(s, e).v, prepared + if Prepares(s, e) then {e.now} else {})
  {
  }

  lemma StepMarksFirst(s: System, e: Event, ack: Option<Time>)
    requires MarkedFirst(s, ack)
    ensures MarkedFirst(Step(s, e), if Matches(s, e) then Some(e.now) else ack)
  {
  }

  lemma {:induction false} RunKeeps(es: seq<Event>)
    ensures TimesPrepared(Run(es).v, PreparedAt(es)) && MarkedFirst(Run(es), LastMatch(es))
  {
    if es != [] {
      var front, e := es[..|es| - 1], es[|es| - 1];
      RunKeeps(front);
      StepKeepsTimes(Run(front), e, PreparedAt(front));
      StepMarksFirst(Run(front), e, LastMatch(front));
    }
  }

  /** In any interleaving what is reported as the time of the last ACK is the time at which some datagram2 was marked
      or tracked, and nothing before the first mark. So unless an ACK arrives at the very clock reading of a mark or a
      tracking, it is the time of the last ACK only while there is neither. */
  lemma ReportedIsNoAckTime(es: seq<Event>, reported: Option<Time>)
    requires ReportedLastAck(Run(es).v, reported)
    ensures reported.Some? ==> reported.value in PreparedAt(es)
    ensures reported.None? <==> Run(es).h.marks == []
    ensures LastMatch(es).None? || LastMatch(es).value !in PreparedAt(es) ==>
              (reported == LastMatch(es) <==> Run(es).h.marks == [])
  {
    RunKeeps(es);
  }

  lemma Next(es: seq<Event>, e: Event) returns (es': seq<Event>)
    ensures es' == es + [e] && Run(es') == Step(Run(es), e)
    ensures LastMatch(es') == if Matches(Run(es), e) then Some(e.now) else LastMatch(es)
  {
    es' := es + [e];
    assert es'[..|es|] == es;
  }

  /** A datagram2 sent at time 0 and acknowledged at any later time: what is reported is still 0. */
  lemma AckLeavesReport(now: Time) returns (es: seq<Event>)
    requires now > 0
    ensures LastMatch(es) == Some(now)
    ensures forall reported :: ReportedLastAck(Run(es).v, reported) <==> reported == Some(0)
  {
    es := Next([], StartSend(0, 0));
    es := Next(es, Resume(0, 0, true));
    assert Run(es).pcs == map[0 := AtRequest(1, 1)];
    es := Next(es, Resume(0, 0, true));
    es := Next(es, Resume(0, 0, true));
    assert Run(es).v.unacked == map[1 := 0] && Run(es).v.lastDatagram2 == Some(0);
    es := Next(es, AckArrives(1, now));
    assert Run(es).v.unacked == map[];
  }
}
