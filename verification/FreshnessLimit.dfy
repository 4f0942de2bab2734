/** The freshness bound cannot be improved: past it, a timely run loses the sender from the table. */
module FreshnessLimit {
  import opened Base
  import opened SenderSpec
  import opened SendMachine
  import opened Freshness
  import Table = ReceiverTable

  ghost predicate AlwaysFresh(p: Parties, k: nat, gap: nat, lag: nat, delay: nat) {
    forall es, e | Timely(p, es, gap, lag) && OnTime(Outcome(p, es), e, k, delay) ::
      Found(p, Outcome(p, es), e.now) == Some(p.self)
  }

  /** Between calls, n refreshes after the only delivered one, the latest attempt just now. */
  predicate Cruising(p: Parties, w: World, n: nat, gap: nat, lag: nat) {
    && w.s.pcs == map[] && w.s.v.counter == 1
    && |w.s.h.marks| == n + 1
    && LastMark(w.s) == n * (LATEST + gap + lag)
    && w.s.v.lastDatagram2 == Some(LastMark(w.s))
    && w.s.h.lastAttempt == Some(w.s.now)
    && LastMark(w.s) <= w.s.now <= LastMark(w.s) + LATEST
    && w.delivered == {1}
    && w.table == map[p.Key() := Table.Entry(p.self, 0)]
  }

  lemma Next(p: Parties, es: seq<Happening>, e: Happening, gap: nat, lag: nat) returns (es': seq<Happening>)
    requires Timely(p, es, gap, lag)
    requires e.Local? ==> TimelyStep(Outcome(p, es).s, e.e, gap, lag)
    ensures Timely(p, es', gap, lag) && Outcome(p, es') == Happens(p, Outcome(p, es), e)
  {
    es' := es + [e];
    assert es'[..|es|] == es;
  }

  /** Marking, framing, tracking and sending a chosen datagram2, all at time t. */
  lemma Refresh(p: Parties, es: seq<Happening>, checked: Time, t: Time, ok: bool, gap: nat, lag: nat)
    returns (es': seq<Happening>)
    requires Timely(p, es, gap, lag)
    requires var s := Outcome(p, es).s; s.pcs == map[0 := AtMark(checked)] && s.now <= t <= checked + lag
    ensures Timely(p, es', gap, lag)
    ensures var w, w' := Outcome(p, es), Outcome(p, es');
            && w'.s.pcs == (if ok then map[0 := AtIncrement] else map[])
            && w'.s.now == t && w'.s.v.counter == w.s.v.counter && w'.s.v.lastDatagram2 == Some(t)
            && |w'.s.h.marks| == |w.s.h.marks| + 1 && LastMark(w'.s) == t
            && w'.s.h.lastAttempt == w.s.h.lastAttempt
            && (ok ==> |w'.s.h.marks| in w'.s.h.sent2)
            && w'.table == w.table && w'.delivered == w.delivered
  {
    es' := Next(p, es, Local(Resume(0, t, true)), gap, lag);
    var m := |Outcome(p, es').s.h.marks|;
    es' := Next(p, es', Local(Resume(0, t, true)), gap, lag);
    es' := Next(p, es', Local(Resume(0, t, true)), gap, lag);
    assert Outcome(p, es').s.pcs[0].AtSend2? && Outcome(p, es').s.pcs[0].mark == m;
    es' := Next(p, es', Local(Resume(0, t, ok)), gap, lag);
  }

  lemma FirstSend(p: Parties, gap: nat, lag: nat) returns (es: seq<Happening>)
    ensures Timely(p, es, gap, lag) && Cruising(p, Outcome(p, es), 0, gap, lag)
  {
    es := Next(p, [], Local(StartSend(0, 0)), gap, lag);
    es := Refresh(p, es, 0, 0, true, gap, lag);
    es := Next(p, es, Local(Resume(0, 0, true)), gap, lag);
    es := Next(p, es, Arrives2(1, 0), gap, lag);
  }

  /** An attempt at time t that chooses datagram3 and fails. */
  lemma FailedAttempt(p: Parties, es: seq<Happening>, t: Time, n: nat, gap: nat, lag: nat)
    returns (es': seq<Happening>)
    requires Timely(p, es, gap, lag) && Cruising(p, Outcome(p, es), n, gap, lag)
    requires var s := Outcome(p, es).s; s.now <= t <= s.now + gap && t <= LastMark(s) + LATEST
    ensures Timely(p, es', gap, lag) && Cruising(p, Outcome(p, es'), n, gap, lag) && Outcome(p, es').s.now == t
  {
    es' := Next(p, es, Local(StartSend(0, t)), gap, lag);
    es' := Next(p, es', Local(Resume(0, t, false)), gap, lag);
  }

  lemma {:induction false} Coast(p: Parties, es: seq<Happening>, n: nat, gap: nat, lag: nat)
    returns (es': seq<Happening>)
    requires Timely(p, es, gap, lag) && Cruising(p, Outcome(p, es), n, gap, lag) && gap > 0
    ensures Timely(p, es', gap, lag) && Cruising(p, Outcome(p, es'), n, gap, lag)
    ensures var s := Outcome(p, es').s; s.now == LastMark(s) + LATEST
    decreases LastMark(Outcome(p, es).s) + LATEST - Outcome(p, es).s.now
  {
    var s := Outcome(p, es).s;
    var end := n * (LATEST + gap + lag) + LATEST;
    if s.now == end {
      es' := es;
    } else if s.now + gap < end {
      es' := FailedAttempt(p, es, s.now + gap, n, gap, lag);
      es' := Coast(p, es', n, gap, lag);
    } else {
      es' := FailedAttempt(p, es, end, n, gap, lag);
    }
  }

  /** A refresh chosen as late as possible, marked as late as possible, and lost. */
  lemma LostRefresh(p: Parties, es: seq<Happening>, n: nat, gap: nat, lag: nat) returns (es': seq<Happening>)
    requires Timely(p, es, gap, lag) && Cruising(p, Outcome(p, es), n, gap, lag) && lag <= gap && gap > 0
    requires var s := Outcome(p, es).s; s.now == LastMark(s) + LATEST
    ensures Timely(p, es', gap, lag) && Cruising(p, Outcome(p, es'), n + 1, gap, lag)
  {
    var t := Outcome(p, es).s.now + gap;
    es' := Next(p, es, Local(StartSend(0, t)), gap, lag);
    es' := Refresh(p, es', t, t + lag, false, gap, lag);
    es' := Next(p, es', Local(StartSend(0, t + lag)), gap, lag);
    es' := Next(p, es', Local(Resume(0, t + lag, false)), gap, lag);
    assert (n + 1) * (LATEST + gap + lag) == n * (LATEST + gap + lag) + (LATEST + gap + lag);
  }

  lemma {:induction false} Lose(p: Parties, k: nat, gap: nat, lag: nat) returns (es: seq<Happening>)
    requires (k == 0 || lag <= gap) && gap > 0
    ensures Timely(p, es, gap, lag) && Cruising(p, Outcome(p, es), k, gap, lag)
  {
    if k == 0 {
      es := FirstSend(p, gap, lag);
    } else {
      es := Lose(p, k - 1, gap, lag);
      es := Coast(p, es, k - 1, gap, lag);
      es := LostRefresh(p, es, k - 1, gap, lag);
    }
  }

  /** A datagram3 decided at the last moment and arriving after the entry has expired. */
  lemma LateArrival(p: Parties, k: nat, gap: nat, lag: nat, delay: nat)
    returns (es: seq<Happening>, e: Happening)
    requires (k == 0 || lag <= gap) && gap > 0 && WorstAge(k, gap, lag, delay) > HASH_EXPIRY
    ensures Timely(p, es, gap, lag) && OnTime(Outcome(p, es), e, k, delay)
    ensures Found(p, Outcome(p, es), e.now) == None
  {
    es := Lose(p, k, gap, lag);
    es := Coast(p, es, k, gap, lag);
    var s := Outcome(p, es).s;
    es := Next(p, es, Local(StartSend(0, s.now)), gap, lag);
    es := Next(p, es, Local(Resume(0, s.now, true)), gap, lag);
    e := Arrives3(|s.h.decisions|, s.now + delay, true);
    assert 1 in Outcome(p, es).delivered;
  }

  /** The table always answers for datagram3s that arrive in time if and only if the worst age is within
      HashExpiryDuration. */
  lemma FreshExactlyWhenBounded(p: Parties, k: nat, gap: nat, lag: nat, delay: nat)
    requires p.Valid() && (k == 0 || lag <= gap) && gap > 0
    ensures AlwaysFresh(p, k, gap, lag, delay) <==> WorstAge(k, gap, lag, delay) <= HASH_EXPIRY
  {
    if WorstAge(k, gap, lag, delay) <= HASH_EXPIRY {
      forall es, e | Timely(p, es, gap, lag) && OnTime(Outcome(p, es), e, k, delay)
        ensures Found(p, Outcome(p, es), e.now) == Some(p.self)
      {
        FreshWhenBounded(p, es, e, k, gap, lag, delay);
      }
    } else {
      var es, e := LateArrival(p, k, gap, lag, delay);
    }
  }
}
