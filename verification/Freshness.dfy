/** A sender, a network that loses, reorders and duplicates, and the receiver's table, on one clock: when does
    every arriving datagram3 still find its sender in the table? */
module Freshness {
  import opened Base
  import opened SenderSpec
  import opened SendMachine
  import opened SendSafety
  import Table = ReceiverTable

  /** `resolves` is the outcome of the SAM lookup the receiver falls back to. */
  datatype Happening =
    | Local(e: Event)
    | Arrives2(mark: nat, now: Time)
    | Arrives3(decision: nat, now: Time, resolves: bool)
    | TableSweep(now: Time)
    | Foreign(sender: Addr, now: Time)

  /** The sender's machine, the receiver's table, and the marks whose datagram2 has arrived. */
  datatype World = World(s: System, table: Table.Table, delivered: set<nat>)

  const Empty: World := World(Start, map[], {})

  /** The two parties: the sender's address and the hash, which no other address shares with it. */
  datatype Parties = Parties(self: Addr, hash: Addr -> SenderHash) {
    ghost predicate Valid() {
      forall a | a != self :: hash(a) != hash(self)
    }

    function Key(): SenderHash {
      hash(self)
    }
  }

  /** What LookupSender answers for the sender's hash. */
  function Found(p: Parties, w: World, now: Time): Option<Addr> {
    Table.Lookup(w.table, p.Key(), now)
  }

  /** The datagram2 of a mark has been handed to the network: its send succeeded or has not returned yet. */
  predicate OnWire2(s: System, mark: nat) {
    || mark in s.h.sent2
    || exists g | g in s.pcs :: (s.pcs[g].AtSend2? || s.pcs[g].ForcedAtSend?) && s.pcs[g].mark == mark
  }

  predicate OnWire3(s: System, decision: nat) {
    decision in s.h.sent3 || exists g | g in s.pcs :: s.pcs[g] == AtSend3(decision)
  }

  predicate Possible(w: World, e: Happening) {
    match e
    case Local(_) => true
    case Arrives2(mark, now) => now >= w.s.now && OnWire2(w.s, mark)
    case Arrives3(decision, now, _) => now >= w.s.now && OnWire3(w.s, decision)
    case TableSweep(now) => now >= w.s.now
    case Foreign(_, now) => now >= w.s.now
  }

  function Tick(w: World, now: Time): World {
    w.(s := w.s.(now := now))
  }

  function Happens(p: Parties, w: World, e: Happening): World {
    if !Possible(w, e) then w
    else
      match e
      case Local(e) => w.(s := Step(w.s, e))
      case Arrives2(mark, now) =>
        Tick(w, now).(table := Table.Register(w.table, p.Key(), p.self, now), delivered := w.delivered + {mark})
      case Arrives3(_, now, resolves) =>
        if Found(p, w, now).None? && resolves
        then Tick(w, now).(table := Table.Register(w.table, p.Key(), p.self, now))
        else Tick(w, now)
      case TableSweep(now) => Tick(w, now).(table := Table.Swept(w.table, now))
      case Foreign(sender, now) => Tick(w, now).(table := Table.Register(w.table, p.hash(sender), sender, now))
  }

  function Outcome(p: Parties, es: seq<Happening>): World {
    if es == [] then Empty else Happens(p, Outcome(p, es[..|es| - 1]), es[|es| - 1])
  }

  // ----- What is assumed of the calls -----

  /** Attempts are at most `gap` apart, and at no step of the sender has a goroutine that chose datagram2 waited
      longer than `lag` before marking it. */
  predicate TimelyStep(s: System, e: Event, gap: nat, lag: nat) {
    Enabled(s, e) ==>
      && (forall g | g in s.pcs && s.pcs[g].AtMark? :: e.now <= s.pcs[g].checked + lag)
      && ((e.StartSend? || e.StartForced?) && s.h.lastAttempt.Some? ==> e.now <= s.h.lastAttempt.value + gap)
  }

  predicate Timely(p: Parties, es: seq<Happening>, gap: nat, lag: nat) {
    es != [] ==>
      var front, e := es[..|es| - 1], es[|es| - 1];
      Timely(p, front, gap, lag) && (e.Local? ==> TimelyStep(Outcome(p, front).s, e.e, gap, lag))
  }

  /** A datagram3 arrives at most `delay` after its decision, and of the marks before that decision one of the
      last k + 1 has been delivered. */
  predicate OnTime(w: World, e: Happening, k: nat, delay: nat) {
    && e.Arrives3? && Possible(w, e) && e.decision < |w.s.h.decisions|
    && var d := w.s.h.decisions[e.decision];
       e.now <= d.time + delay && exists m | m in w.delivered :: d.marks - k <= m <= d.marks
  }

  // ----- The sender's marks are never far apart -----

  const LATEST: nat := REPLIABLE_TIME_INTERVAL - 1

  function LastMark(s: System): Time
    requires s.h.marks != []
  {
    s.h.marks[|s.h.marks| - 1].time
  }

  /** A goroutine is about to mark a datagram2 that it chose soon enough. */
  predicate Due(s: System, gap: nat) {
    s.h.marks != [] && exists g | g in s.pcs :: s.pcs[g].AtMark? && s.pcs[g].checked <= LastMark(s) + LATEST + gap
  }

  predicate Pending(s: System) {
    exists g | g in s.pcs :: s.pcs[g].AtMark?
  }

  predicate Spaced(s: System, gap: nat, lag: nat) {
    && (forall i | 0 < i < |s.h.marks| :: s.h.marks[i].time - s.h.marks[i - 1].time <= LATEST + gap + lag)
    && (s.h.lastAttempt.Some? ==> s.h.lastAttempt.value <= s.now)
    && (s.h.lastAttempt.None? ==> s.h.marks == [] && !Pending(s))
    && (s.h.marks != [] && Pending(s) ==> Due(s, gap))
    && (s.h.marks != [] ==> s.h.lastAttempt.value <= LastMark(s) + LATEST || Due(s, gap))
  }

  /** The next mark comes in time. */
  lemma NextMarkSoon(s: System, e: Event, gap: nat, lag: nat)
    requires Spaced(s, gap, lag) && Enabled(s, e) && TimelyStep(s, e, gap, lag) && s.h.marks != []
    requires e.StartForced? || (e.Resume? && s.pcs[e.g].AtMark?)
    ensures e.now - LastMark(s) <= LATEST + gap + lag
  {
    if Due(s, gap) {
      var g :| g in s.pcs && s.pcs[g].AtMark? && s.pcs[g].checked <= LastMark(s) + LATEST + gap;
    } else if e.Resume? {
      assert Pending(s);
    }
  }

  lemma MarkSpaces(s: System, s': System, gap: nat, lag: nat)
    requires Spaced(s, gap, lag)
    requires s'.h.marks == s.h.marks + [MarkRecord(s'.now, s'.v.lastSeqNum)] && s'.now >= s.now
    requires s.h.marks != [] ==> s'.now - LastMark(s) <= LATEST + gap + lag
    requires s'.h.lastAttempt.Some? && s'.h.lastAttempt.value <= s'.now
    requires forall g | g in s'.pcs && s'.pcs[g].AtMark? :: s'.pcs[g].checked <= s'.now
    ensures Spaced(s', gap, lag)
  {
    assert LastMark(s') == s'.now;
  }

  /** Steps that neither mark nor attempt. */
  lemma OtherSpaces(s: System, s': System, gap: nat, lag: nat)
    requires Spaced(s, gap, lag)
    requires s'.h.marks == s.h.marks && s'.h.lastAttempt == s.h.lastAttempt && s'.now >= s.now
    requires forall g | g in s.pcs && s.pcs[g].AtMark? :: g in s'.pcs && s'.pcs[g] == s.pcs[g]
    requires forall g | g in s'.pcs && s'.pcs[g].AtMark? :: g in s.pcs && s'.pcs[g] == s.pcs[g]
    ensures Spaced(s', gap, lag)
  {
    if Due(s, gap) {
      var g :| g in s.pcs && s.pcs[g].AtMark? && s.pcs[g].checked <= LastMark(s) + LATEST + gap;
      assert s'.pcs[g].AtMark?;
    }
  }

  lemma ChooseSpaces(s: System, g: Goroutine, now: Time, gap: nat, lag: nat)
    requires Safe(s) && Spaced(s, gap, lag)
    requires Enabled(s, StartSend(g, now)) && TimelyStep(s, StartSend(g, now), gap, lag)
    ensures Spaced(Step(s, StartSend(g, now)), gap, lag)
  {
    var s' := Step(s, StartSend(g, now));
    assert s'.h.marks == s.h.marks && s'.h.lastAttempt == Some(now) && s'.now == now;
    if s.h.marks != [] {
      ChoiceIsDue(s, s', g, gap);
    }
  }

  /** A choice of datagram2 is due in time, and one of datagram3 falls within the interval. */
  lemma ChoiceIsDue(s: System, s': System, g: Goroutine, gap: nat)
    requires s.h.marks != [] && s'.h.marks == s.h.marks && g !in s.pcs && g in s'.pcs
    requires s'.pcs == s.pcs[g := s'.pcs[g]]
    requires Pending(s) ==> Due(s, gap)
    requires s.h.lastAttempt.Some? && s'.now <= s.h.lastAttempt.value + gap
    requires s.h.lastAttempt.value <= LastMark(s) + LATEST || Due(s, gap)
    requires if s'.pcs[g].AtMark? then s'.pcs[g].checked == s'.now else s'.now <= LastMark(s) + LATEST
    ensures Pending(s') ==> Due(s', gap)
    ensures s'.now <= LastMark(s') + LATEST || Due(s', gap)
  {
    if Due(s, gap) {
      var a :| a in s.pcs && s.pcs[a].AtMark? && s.pcs[a].checked <= LastMark(s) + LATEST + gap;
      assert s'.pcs[a] == s.pcs[a];
    } else if s'.pcs[g].AtMark? {
      assert s'.pcs[g].checked <= LastMark(s') + LATEST + gap;
    } else {
      assert !Pending(s');
    }
  }

  lemma StepSpaces(s: System, e: Event, gap: nat, lag: nat)
    requires Safe(s) && Spaced(s, gap, lag) && TimelyStep(s, e, gap, lag)
    ensures Spaced(Step(s, e), gap, lag)
  {
    var s' := Step(s, e);
    if Enabled(s, e) {
      if e.StartForced? || (e.Resume? && s.pcs[e.g].AtMark?) {
        if s.h.marks != [] {
          NextMarkSoon(s, e, gap, lag);
        }
        assert forall g | g in s.pcs :: PcOk(s.h, s.now, s.pcs[g]);
        assert e.Resume? ==> Pending(s);
        MarkSpaces(s, s', gap, lag);
      } else if e.StartSend? {
        ChooseSpaces(s, e.g, e.now, gap, lag);
      } else {
        OtherSpaces(s, s', gap, lag);
      }
    }
  }

  lemma {:induction false} MarksWithin(s: System, i: nat, j: nat, gap: nat, lag: nat)
    requires Spaced(s, gap, lag) && i <= j < |s.h.marks|
    ensures s.h.marks[j].time - s.h.marks[i].time <= (j - i) * (LATEST + gap + lag)
    decreases j
  {
    if i < j {
      MarksWithin(s, i, j - 1, gap, lag);
    }
  }

  // ----- The receiver's table -----

  /** Every delivered mark is either still good for an entry of the sender or too old to matter. */
  predicate Registered(p: Parties, w: World, mark: nat) {
    && 0 < mark <= |w.s.h.marks|
    && var time := w.s.h.marks[mark - 1].time;
       time + HASH_EXPIRY < w.s.now || (p.Key() in w.table && w.table[p.Key()].lastRefresh >= time)
  }

  predicate TableOk(p: Parties, w: World) {
    && (p.Key() in w.table ==>
          w.table[p.Key()].destination == p.self && w.table[p.Key()].lastRefresh <= w.s.now)
    && (forall m | m in w.delivered :: Registered(p, w, m))
  }

  lemma OnWireIsMarked(s: System, mark: nat)
    requires Safe(s) && OnWire2(s, mark)
    ensures 0 < mark <= |s.h.marks|
  {
    if mark !in s.h.sent2 {
      var g :| g in s.pcs && (s.pcs[g].AtSend2? || s.pcs[g].ForcedAtSend?) && s.pcs[g].mark == mark;
      assert PcOk(s.h, s.now, s.pcs[g]);
    }
  }

  lemma TableKept(p: Parties, w: World, e: Happening)
    requires p.Valid() && Safe(w.s) && TableOk(p, w)
    ensures TableOk(p, Happens(p, w, e))
  {
    var w' := Happens(p, w, e);
    if e.Arrives2? && Possible(w, e) {
      OnWireIsMarked(w.s, e.mark);
    }
    forall m | m in w'.delivered ensures Registered(p, w', m) {
      if m in w.delivered {
        assert Registered(p, w, m);
      }
    }
  }

  lemma {:induction false} HappensKeeps(p: Parties, w: World, e: Happening, gap: nat, lag: nat)
    requires Safe(w.s) && Spaced(w.s, gap, lag)
    requires e.Local? ==> TimelyStep(w.s, e.e, gap, lag)
    ensures var w' := Happens(p, w, e); Safe(w'.s) && Spaced(w'.s, gap, lag)
  {
    var w' := Happens(p, w, e);
    if e.Local? {
      StepKeeps(w.s, e.e);
      StepSpaces(w.s, e.e, gap, lag);
    } else if Possible(w, e) {
      assert w'.s == w.s.(now := e.now);
      PcsKept(w.s, w'.s);
      OtherSpaces(w.s, w'.s, gap, lag);
    }
  }

  lemma {:induction false} HistoryOk(p: Parties, es: seq<Happening>, gap: nat, lag: nat)
    requires p.Valid() && Timely(p, es, gap, lag)
    ensures var w := Outcome(p, es); Safe(w.s) && Spaced(w.s, gap, lag) && TableOk(p, w)
  {
    if es != [] {
      var front, e := es[..|es| - 1], es[|es| - 1];
      HistoryOk(p, front, gap, lag);
      TableKept(p, Outcome(p, front), e);
      HappensKeeps(p, Outcome(p, front), e, gap, lag);
    }
  }

  // ----- The table and its log -----

  /** What a happening does to the table: a datagram2 registers its sender, a datagram3 only when the table had no
      answer and SAM did. */
  function Logged(p: Parties, w: World, e: Happening): seq<Table.Event> {
    if !Possible(w, e) then []
    else
      match e
      case Local(_) => []
      case Arrives2(_, now) => [Table.Registered(p.Key(), p.self, now)]
      case Arrives3(_, now, resolves) =>
        if Table.Lookup(w.table, p.Key(), now).None? && resolves then [Table.Registered(p.Key(), p.self, now)] else []
      case TableSweep(now) => [Table.SweptAt(now)]
      case Foreign(sender, now) => [Table.Registered(p.hash(sender), sender, now)]
  }

  function TableLog(p: Parties, es: seq<Happening>): seq<Table.Event> {
    if es == [] then []
    else TableLog(p, es[..|es| - 1]) + Logged(p, Outcome(p, es[..|es| - 1]), es[|es| - 1])
  }

  lemma AppendedLog(log: seq<Table.Event>, x: Table.Event)
    ensures Table.TableAfter(log + [x]) ==
            if x.Registered? then Table.Register(Table.TableAfter(log), x.hash, x.destination, x.now)
            else Table.Swept(Table.TableAfter(log), x.now)
  {
    assert (log + [x])[..|log|] == log;
  }

  lemma HappensLogs(p: Parties, w: World, e: Happening, log: seq<Table.Event>)
    requires w.table == Table.TableAfter(log)
    ensures Happens(p, w, e).table == Table.TableAfter(log + Logged(p, w, e))
  {
    var more := Logged(p, w, e);
    if more == [] {
      assert log + [] == log;
    } else {
      AppendedLog(log, more[0]);
      assert more == [more[0]];
    }
  }

  /** The table of every run is that of its log of registrations and sweeps. */
  lemma {:induction false} TableIsLogged(p: Parties, es: seq<Happening>)
    ensures Outcome(p, es).table == Table.TableAfter(TableLog(p, es))
  {
    if es != [] {
      TableIsLogged(p, es[..|es| - 1]);
      HappensLogs(p, Outcome(p, es[..|es| - 1]), es[|es| - 1], TableLog(p, es[..|es| - 1]));
    }
  }

  /** The marks delivered are those whose arrival happened. */
  lemma {:induction false} DeliveredHasArrived(p: Parties, es: seq<Happening>, mark: nat)
    ensures mark in Outcome(p, es).delivered <==>
            exists n | 0 <= n < |es| :: es[n].Arrives2? && es[n].mark == mark && Possible(Outcome(p, es[..n]), es[n])
  {
    if es != [] {
      var front, last := es[..|es| - 1], |es| - 1;
      DeliveredHasArrived(p, front, mark);
      assert forall n | 0 <= n < last :: front[..n] == es[..n] && front[n] == es[n];
    }
  }

  /** What has been handed to the network may arrive, even before its send returns, and never before that. */
  lemma MayArriveOnceHandedOver(w: World, g: Goroutine, mark: nat, decision: nat, now: Time, resolves: bool)
    requires now >= w.s.now && g in w.s.pcs
    ensures (w.s.pcs[g].AtSend2? || w.s.pcs[g].ForcedAtSend?) && w.s.pcs[g].mark == mark ==>
              Possible(w, Arrives2(mark, now))
    ensures w.s.pcs[g] == AtSend3(decision) ==> Possible(w, Arrives3(decision, now, resolves))
    ensures mark > |w.s.h.marks| && Safe(w.s) ==> !Possible(w, Arrives2(mark, now))
  {
    if Safe(w.s) && OnWire2(w.s, mark) {
      OnWireIsMarked(w.s, mark);
    }
  }

  // ----- One arrival -----

  /** A datagram2 arrived at time `at`: within ten minutes of it the sender is in the table. */
  predicate Answers(p: Parties, w: World, at: Time) {
    && at <= w.s.now
    && (w.s.now <= at + 10 * MINUTE ==>
          p.Key() in w.table && w.table[p.Key()].destination == p.self && w.table[p.Key()].lastRefresh >= at)
  }

  predicate Owned(p: Parties, w: World) {
    p.Key() in w.table ==> w.table[p.Key()].destination == p.self && w.table[p.Key()].lastRefresh <= w.s.now
  }

  lemma HappensOwns(p: Parties, w: World, e: Happening)
    requires p.Valid() && Owned(p, w)
    ensures Owned(p, Happens(p, w, e))
  {
  }

  lemma HappensAnswers(p: Parties, w: World, e: Happening, at: Time)
    requires p.Valid() && Owned(p, w)
    ensures Answers(p, w, at) ==> Answers(p, Happens(p, w, e), at)
    ensures e.Arrives2? && Possible(w, e) ==> Answers(p, Happens(p, w, e), e.now)
  {
  }

  /** Whatever happens after the arrival of any datagram2, without any assumption on the calls: for the next ten
      minutes every lookup finds the sender. */
  lemma {:induction false} ArrivalLastsTenMinutes(p: Parties, es: seq<Happening>, n: nat, t: Time)
    requires p.Valid() && n < |es| && es[n].Arrives2? && Possible(Outcome(p, es[..n]), es[n])
    ensures Owned(p, Outcome(p, es)) && Answers(p, Outcome(p, es), es[n].now)
    ensures Outcome(p, es).s.now <= t <= es[n].now + 10 * MINUTE ==> Found(p, Outcome(p, es), t) == Some(p.self)
  {
    var front, e := es[..|es| - 1], es[|es| - 1];
    RunOwns(p, front);
    if n < |es| - 1 {
      assert front[..n] == es[..n];
      ArrivalLastsTenMinutes(p, front, n, t);
    }
    HappensOwns(p, Outcome(p, front), e);
    HappensAnswers(p, Outcome(p, front), e, es[n].now);
  }

  lemma {:induction false} RunOwns(p: Parties, es: seq<Happening>)
    requires p.Valid()
    ensures Owned(p, Outcome(p, es))
  {
    if es != [] {
      RunOwns(p, es[..|es| - 1]);
      HappensOwns(p, Outcome(p, es[..|es| - 1]), es[|es| - 1]);
    }
  }

  // ----- The bound -----

  /** The greatest age of the sender's entry when a datagram3 arrives, in the worst run. */
  function WorstAge(k: nat, gap: nat, lag: nat, delay: nat): nat {
    LATEST + k * (LATEST + gap + lag) + delay
  }

  lemma Scale(n: nat, k: nat, x: nat)
    requires n <= k
    ensures n * x <= k * x
  {
  }

  /** Any interleaving of sending goroutines, any loss, reordering and duplication, any sweeps and other senders:
      a datagram3 that arrives in time resolves from the table to its sender. */
  lemma FreshWhenBounded(p: Parties, es: seq<Happening>, e: Happening, k: nat, gap: nat, lag: nat, delay: nat)
    requires p.Valid() && Timely(p, es, gap, lag)
    requires WorstAge(k, gap, lag, delay) <= HASH_EXPIRY
    requires OnTime(Outcome(p, es), e, k, delay)
    ensures Found(p, Outcome(p, es), e.now) == Some(p.self)
  {
    HistoryOk(p, es, gap, lag);
    var w := Outcome(p, es);
    var d := w.s.h.decisions[e.decision];
    var m :| m in w.delivered && d.marks - k <= m <= d.marks;
    assert Registered(p, w, m) && DecisionOk(w.s.h, d);
    MarkIsYoung(w.s, d, m, k, gap, lag);
  }

  lemma MarkIsYoung(s: System, d: Decision, m: nat, k: nat, gap: nat, lag: nat)
    requires Spaced(s, gap, lag) && DecisionOk(s.h, d) && 0 < m && d.marks - k <= m <= d.marks
    ensures d.time - s.h.marks[m - 1].time <= LATEST + k * (LATEST + gap + lag)
  {
    MarksWithin(s, m - 1, d.marks - 1, gap, lag);
    Scale(d.marks - m, k, LATEST + gap + lag);
  }

  /** With the configured intervals: nothing lost tolerates a delay of six minutes, one lost refresh two minutes of
      gap, lag and delay together. */
  lemma ConfiguredMargins(p: Parties, es: seq<Happening>, e: Happening, gap: nat, lag: nat, delay: nat)
    requires p.Valid() && Timely(p, es, gap, lag)
    requires (OnTime(Outcome(p, es), e, 0, delay) && delay <= 6 * MINUTE) ||
             (OnTime(Outcome(p, es), e, 1, delay) && gap + lag + delay <= 2 * MINUTE)
    ensures Found(p, Outcome(p, es), e.now) == Some(p.self)
  {
    if OnTime(Outcome(p, es), e, 0, delay) && delay <= 6 * MINUTE {
      FreshWhenBounded(p, es, e, 0, gap, lag, delay);
    } else {
      FreshWhenBounded(p, es, e, 1, gap, lag, delay);
    }
  }
}
