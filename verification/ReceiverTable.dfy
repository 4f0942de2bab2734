/** The expiring table from sender hashes to destinations (hybrid2/receiver.go): values and laws. */
module ReceiverTable {
  import opened Base

  datatype Entry = Entry(destination: Addr, lastRefresh: Time)

  type Table = map<SenderHash, Entry>

  predicate Expired(e: Entry, now: Time) {
    Elapsed(e.lastRefresh, now) > HASH_EXPIRY
  }

  /** An entry already present keeps its destination. */
  function Register(t: Table, hash: SenderHash, destination: Addr, now: Time): Table {
    t[hash := if hash in t then t[hash].(lastRefresh := now) else Entry(destination, now)]
  }

  function Lookup(t: Table, hash: SenderHash, now: Time): Option<Addr> {
    if hash !in t || Expired(t[hash], now) then None else Some(t[hash].destination)
  }

  function Swept(t: Table, now: Time): Table {
    map h | h in t && !Expired(t[h], now) :: t[h]
  }

  datatype Event =
    | Registered(hash: SenderHash, destination: Addr, now: Time)
    | SweptAt(now: Time)

  function TableAfter(es: seq<Event>): Table {
    if es == [] then map[]
    else
      var t := TableAfter(es[..|es| - 1]);
      match es[|es| - 1]
      case Registered(h, d, now) => Register(t, h, d, now)
      case SweptAt(now) => Swept(t, now)
  }

  /** The plain log: the latest registration of the hash, if there is one. */
  function Latest(es: seq<Event>, hash: SenderHash): (e: Option<Event>)
    ensures e.Some? ==> e.value.Registered? && e.value.hash == hash && e.value in es
  {
    if es == [] then None
    else
      var last := es[|es| - 1];
      if last.Registered? && last.hash == hash then Some(last) else Latest(es[..|es| - 1], hash)
  }

  function LookupInLog(es: seq<Event>, hash: SenderHash, now: Time): Option<Addr> {
    match Latest(es, hash)
    case None => None
    case Some(e) => if e.now + HASH_EXPIRY < now then None else Some(e.destination)
  }

  predicate Clocked(es: seq<Event>, now: Time) {
    && (forall i | 0 <= i < |es| :: es[i].now <= now)
    && (forall i, j | 0 <= i < j < |es| :: es[i].now <= es[j].now)
  }

  /** All registrations of the hash are for one destination. */
  predicate Determined(es: seq<Event>, hash: SenderHash) {
    forall i, j | 0 <= i < |es| && 0 <= j < |es| && es[i].Registered? && es[j].Registered? &&
                  es[i].hash == es[j].hash == hash :: es[i].destination == es[j].destination
  }

  /** What the table holds for a hash, against the log. */
  lemma {:induction false} TableAgainstLog(es: seq<Event>, hash: SenderHash, now: Time)
    requires Clocked(es, now)
    ensures var t, latest := TableAfter(es), Latest(es, hash);
            if hash in t then
              && latest.Some? && t[hash].lastRefresh == latest.value.now
              && (Determined(es, hash) ==> t[hash].destination == latest.value.destination)
            else
              latest.None? || latest.value.now + HASH_EXPIRY < now
  {
    if es != [] {
      var front, last := es[..|es| - 1], es[|es| - 1];
      TableAgainstLog(front, hash, last.now);
      if last.Registered? && last.hash == hash && hash in TableAfter(front) {
        var i :| 0 <= i < |front| && front[i] == Latest(front, hash).value;
        assert es[i] == front[i];
      }
    }
  }

  /** A lookup succeeds exactly when the latest registration is at most HashExpiryDuration old,
      whenever sweeps happened. */
  lemma LookupSucceedsAsLogged(es: seq<Event>, hash: SenderHash, now: Time)
    requires Clocked(es, now)
    ensures Lookup(TableAfter(es), hash, now).Some? <==> LookupInLog(es, hash, now).Some?
  {
    TableAgainstLog(es, hash, now);
  }

  /** When the hash determines the destination the table and the log give the same answer. */
  lemma LookupMatchesLog(es: seq<Event>, hash: SenderHash, now: Time)
    requires Clocked(es, now) && Determined(es, hash)
    ensures Lookup(TableAfter(es), hash, now) == LookupInLog(es, hash, now)
  {
    TableAgainstLog(es, hash, now);
  }

  function WithoutSweeps(es: seq<Event>): seq<Event> {
    if es == [] then []
    else
      var front, last := WithoutSweeps(es[..|es| - 1]), es[|es| - 1];
      if last.SweptAt? then front else front + [last]
  }

  lemma LatestSnoc(es: seq<Event>, e: Event, hash: SenderHash)
    ensures Latest(es + [e], hash) == if e.Registered? && e.hash == hash then Some(e) else Latest(es, hash)
  {
    assert (es + [e])[..|es|] == es;
  }

  lemma {:induction false} WithoutSweepsSameLatest(es: seq<Event>, hash: SenderHash)
    ensures Latest(WithoutSweeps(es), hash) == Latest(es, hash)
  {
    if es != [] {
      var front, last := es[..|es| - 1], es[|es| - 1];
      WithoutSweepsSameLatest(front, hash);
      LatestSnoc(WithoutSweeps(front), last, hash);
    }
  }

  lemma {:induction false} WithoutSweepsFewer(es: seq<Event>, e: Event)
    requires e in WithoutSweeps(es)
    ensures e in es
  {
    var front, last := es[..|es| - 1], es[|es| - 1];
    if e in WithoutSweeps(front) {
      WithoutSweepsFewer(front, e);
    } else {
      assert e == last;
    }
  }

  lemma {:induction false} WithoutSweepsClocked(es: seq<Event>, now: Time)
    requires Clocked(es, now)
    ensures Clocked(WithoutSweeps(es), now)
  {
    if es != [] {
      WithoutSweepsClocked(es[..|es| - 1], es[|es| - 1].now);
    }
  }

  /** Sweeping cannot be observed by lookups. */
  lemma SweepsUnobservable(es: seq<Event>, hash: SenderHash, now: Time)
    requires Clocked(es, now) && Determined(es, hash)
    ensures Lookup(TableAfter(es), hash, now) == Lookup(TableAfter(WithoutSweeps(es)), hash, now)
  {
    var es' := WithoutSweeps(es);
    WithoutSweepsSameLatest(es, hash);
    WithoutSweepsClocked(es, now);
    assert Determined(es', hash) by {
      forall i, j | 0 <= i < |es'| && 0 <= j < |es'| && es'[i].Registered? && es'[j].Registered? &&
                    es'[i].hash == es'[j].hash == hash
        ensures es'[i].destination == es'[j].destination
      {
        WithoutSweepsFewer(es, es'[i]);
        WithoutSweepsFewer(es, es'[j]);
      }
    }
    LookupMatchesLog(es, hash, now);
    LookupMatchesLog(es', hash, now);
  }

  /** A registration decides the answer exactly when no entry for another destination is in its way. */
  lemma RegistrationWins(t: Table, hash: SenderHash, destination: Addr, now: Time)
    ensures Lookup(Register(t, hash, destination, now), hash, now) == Some(destination) <==>
            (hash !in t || t[hash].destination == destination)
  {
  }

  /** A registration answers for exactly ten minutes, with the destination of an entry that was there or its own. */
  lemma RegisteredForTenMinutes(t: Table, hash: SenderHash, destination: Addr, at: Time, now: Time)
    ensures Lookup(Register(t, hash, destination, at), hash, now) ==
            if now - at > 10 * MINUTE then None
            else Some(if hash in t then t[hash].destination else destination)
    ensures forall h | h != hash :: Lookup(Register(t, hash, destination, at), h, now) == Lookup(t, h, now)
  {
  }

  /** Two destinations under one hash make the sweep visible: the second one is returned only if
      the first was swept in time. */
  lemma CollisionShowsSweep(hash: SenderHash, a: Addr, b: Addr)
    requires a != b
    ensures var late := HASH_EXPIRY + 1;
            && Lookup(TableAfter([Registered(hash, a, 0), Registered(hash, b, late)]), hash, late) == Some(a)
            && Lookup(TableAfter([Registered(hash, a, 0), SweptAt(late), Registered(hash, b, late)]), hash, late)
               == Some(b)
  {
    var late := HASH_EXPIRY + 1;
    var first := [Registered(hash, a, 0)];
    assert TableAfter(first) == map[hash := Entry(a, 0)];
    assert [Registered(hash, a, 0), Registered(hash, b, late)][..1] == first;
    var es := [Registered(hash, a, 0), SweptAt(late), Registered(hash, b, late)];
    assert es[..2][..1] == first;
    assert TableAfter(es[..2]) == map[];
  }
}
