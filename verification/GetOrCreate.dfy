/** GetOrCreateMapValue (internal/hybridcommon/maps.go): any number of threads, one map, one reader/writer lock. */
module GetOrCreate {
  import opened Base

  type Thread = nat

  /** Where a call stands. `since` is the number of operations that had taken effect when it began and `at` the
      place of its own. */
  datatype Pc<K, V> =
    | WantsRead(key: K, since: nat)
    | Reads(key: K, since: nat)
    | HasRead(key: K, since: nat, seen: Option<V>, at: nat)
    | WantsWrite(key: K, since: nat)
    | Rereads(key: K, since: nat)
    | Creates(key: K, since: nat)
    | Stores(key: K, since: nat, value: V)
    | Leaves(key: K, since: nat, value: V, at: nat)
    | Returned(key: K, since: nat, value: V, at: nat)

  datatype Event<K, V> =
    | Call(t: Thread, key: K)
    | Advance(t: Thread, made: V)
    | Forget(t: Thread)

  /** One operation of the sequential object. */
  datatype Op<K, V> = Op(t: Thread, key: K, value: V, created: bool)

  /** `built` lists the keys the constructor ran for; `log` the operations in the order they took effect. */
  datatype State<K, V> = State(
    values: map<K, V>,
    readers: set<Thread>,
    writer: Option<Thread>,
    pcs: map<Thread, Pc<K, V>>,
    built: seq<K>,
    log: seq<Op<K, V>>)

  function Fresh<K, V>(initial: map<K, V>): State<K, V> {
    State(initial, {}, None, map[], [], [])
  }

  function Move<K, V>(s: State<K, V>, t: Thread, pc: Pc<K, V>): State<K, V> {
    s.(pcs := s.pcs[t := pc])
  }

  function Record<K, V>(s: State<K, V>, op: Op<K, V>): State<K, V> {
    s.(log := s.log + [op])
  }

  /** The next step of thread t; one that must wait for the lock stays where it is. */
  function Proceed<K, V>(s: State<K, V>, t: Thread, made: V): State<K, V>
    requires t in s.pcs
  {
    match s.pcs[t]
    case WantsRead(k, since) =>
      if s.writer.None? then Move(s.(readers := s.readers + {t}), t, Reads(k, since)) else s
    case Reads(k, since) =>
      if k in s.values
      then Move(Record(s, Op(t, k, s.values[k], false)), t, HasRead(k, since, Some(s.values[k]), |s.log|))
      else Move(s, t, HasRead(k, since, None, 0))
    case HasRead(k, since, seen, at) =>
      var s' := s.(readers := s.readers - {t});
      if seen.Some? then Move(s', t, Returned(k, since, seen.value, at)) else Move(s', t, WantsWrite(k, since))
    case WantsWrite(k, since) =>
      if s.writer.None? && s.readers == {} then Move(s.(writer := Some(t)), t, Rereads(k, since)) else s
    case Rereads(k, since) =>
      if k in s.values
      then Move(Record(s, Op(t, k, s.values[k], false)), t, Leaves(k, since, s.values[k], |s.log|))
      else Move(s, t, Creates(k, since))
    case Creates(k, since) => Move(s.(built := s.built + [k]), t, Stores(k, since, made))
    case Stores(k, since, v) =>
      Move(Record(s.(values := s.values[k := v]), Op(t, k, v, true)), t, Leaves(k, since, v, |s.log|))
    case Leaves(k, since, v, at) => Move(s.(writer := None), t, Returned(k, since, v, at))
    case Returned(_, _, _, _) => s
  }

  function Step<K, V>(s: State<K, V>, e: Event<K, V>): State<K, V> {
    match e
    case Call(t, k) => if t in s.pcs then s else Move(s, t, WantsRead(k, |s.log|))
    case Advance(t, made) => if t in s.pcs then Proceed(s, t, made) else s
    case Forget(t) => if t in s.pcs && s.pcs[t].Returned? then s.(pcs := s.pcs - {t}) else s
  }

  function Run<K, V>(initial: map<K, V>, es: seq<Event<K, V>>): State<K, V> {
    if es == [] then Fresh(initial) else Step(Run(initial, es[..|es| - 1]), es[|es| - 1])
  }

  /** The sequential object: what the map is after the logged operations, run one at a time. */
  function Replay<K, V>(initial: map<K, V>, log: seq<Op<K, V>>): map<K, V> {
    if log == [] then initial
    else
      var m, op := Replay(initial, log[..|log| - 1]), log[|log| - 1];
      if op.created then m[op.key := op.value] else m
  }

  /** Every operation returned what the sequential object would: the value bound to the key, or, when there was
      none, a new value that it bound. */
  ghost predicate Sequential<K, V>(initial: map<K, V>, log: seq<Op<K, V>>) {
    log != [] ==>
      && var m, op := Replay(initial, log[..|log| - 1]), log[|log| - 1];
         Sequential(initial, log[..|log| - 1]) &&
         if op.created then op.key !in m else op.key in m && m[op.key] == op.value
  }

  // ----- The lock -----

  ghost predicate HoldsRead<K, V>(pc: Pc<K, V>) {
    pc.Reads? || pc.HasRead?
  }

  ghost predicate HoldsWrite<K, V>(pc: Pc<K, V>) {
    pc.Rereads? || pc.Creates? || pc.Stores? || pc.Leaves?
  }

  ghost predicate Locked<K, V>(s: State<K, V>) {
    && (forall t :: t in s.readers <==> t in s.pcs && HoldsRead(s.pcs[t]))
    && (forall t :: s.writer == Some(t) <==> t in s.pcs && HoldsWrite(s.pcs[t]))
    && (s.writer.Some? ==> s.readers == {})
  }

  lemma {:induction false} LockHeld<K, V>(initial: map<K, V>, es: seq<Event<K, V>>)
    ensures Locked(Run(initial, es))
  {
    if es != [] {
      var front, e := es[..|es| - 1], es[|es| - 1];
      LockHeld(initial, front);
      StepLocks(Run(initial, front), e);
    }
  }

  lemma StepLocks<K, V>(s: State<K, V>, e: Event<K, V>)
    requires Locked(s)
    ensures Locked(Step(s, e))
  {
  }

  /** A thread that is reading or writing the map is alone with it, but for other readers. */
  lemma NoWriterOverlaps<K, V>(initial: map<K, V>, es: seq<Event<K, V>>, t: Thread, u: Thread)
    requires var s := Run(initial, es); t in s.pcs && u in s.pcs && t != u && HoldsWrite(s.pcs[t])
    ensures var s := Run(initial, es); !HoldsWrite(s.pcs[u]) && !HoldsRead(s.pcs[u])
  {
    LockHeld(initial, es);
  }

  // ----- Linearizability -----

  /** The operation of a call took effect after the call began, with the result the call returns. */
  ghost predicate Effective<K, V>(s: State<K, V>, t: Thread, key: K, since: nat, value: V, at: nat) {
    since <= at < |s.log| && s.log[at].t == t && s.log[at].key == key && s.log[at].value == value
  }

  ghost predicate PcOk<K, V>(s: State<K, V>, t: Thread, pc: Pc<K, V>) {
    && pc.since <= |s.log|
    && match pc
       case HasRead(k, since, seen, at) => seen.Some? ==> Effective(s, t, k, since, seen.value, at)
       case Creates(k, _) => k !in s.values && k !in s.built
       case Stores(k, _, _) => k !in s.values
       case Leaves(k, since, v, at) => Effective(s, t, k, since, v, at)
       case Returned(k, since, v, at) => Effective(s, t, k, since, v, at)
       case _ => true
  }

  ghost predicate Building<K, V>(s: State<K, V>, k: K) {
    s.writer.Some? && s.writer.value in s.pcs && s.pcs[s.writer.value].Stores? && s.pcs[s.writer.value].key == k
  }

  ghost predicate BuiltOnce<K, V>(initial: map<K, V>, s: State<K, V>) {
    && (forall i, j | 0 <= i < j < |s.built| :: s.built[i] != s.built[j])
    && (forall k | k in s.built :: k !in initial && (k in s.values || Building(s, k)))
  }

  ghost predicate LogOk<K, V>(initial: map<K, V>, s: State<K, V>) {
    && s.values == Replay(initial, s.log)
    && Sequential(initial, s.log)
    && (forall k | k in initial :: k in s.values && s.values[k] == initial[k])
    && (forall i | 0 <= i < |s.log| :: s.log[i].key in s.values && s.values[s.log[i].key] == s.log[i].value)
  }

  ghost predicate PcsOk<K, V>(s: State<K, V>) {
    forall t | t in s.pcs :: PcOk(s, t, s.pcs[t])
  }

  ghost predicate Linear<K, V>(initial: map<K, V>, s: State<K, V>) {
    LogOk(initial, s) && PcsOk(s) && BuiltOnce(initial, s)
  }

  lemma ReplaySnoc<K, V>(initial: map<K, V>, log: seq<Op<K, V>>, op: Op<K, V>)
    requires Sequential(initial, log)
    requires var m := Replay(initial, log); if op.created then op.key !in m else op.key in m && m[op.key] == op.value
    ensures Sequential(initial, log + [op])
    ensures Replay(initial, log + [op]) ==
            if op.created then Replay(initial, log)[op.key := op.value] else Replay(initial, log)
  {
    assert (log + [op])[..|log|] == log;
  }

  /** A step of thread t leaves the other threads as they were. */
  lemma OthersOk<K, V>(s: State<K, V>, s': State<K, V>, t: Thread)
    requires PcsOk(s) && Locked(s)
    requires s.log <= s'.log
    requires (s'.values == s.values && s'.built == s.built) || (t in s.pcs && HoldsWrite(s.pcs[t]))
    requires forall u | u in s'.pcs && u != t :: u in s.pcs && s'.pcs[u] == s.pcs[u]
    ensures forall u | u in s'.pcs && u != t :: PcOk(s', u, s'.pcs[u])
  {
    forall u | u in s'.pcs && u != t ensures PcOk(s', u, s'.pcs[u]) {
      assert PcOk(s, u, s.pcs[u]);
      if HoldsWrite(s.pcs[u]) {
        assert s.writer == Some(u);
      }
    }
  }

  /** A lookup of a bound key takes effect. */
  lemma LookupLogged<K, V>(initial: map<K, V>, s: State<K, V>, t: Thread, k: K)
    requires LogOk(initial, s) && k in s.values
    ensures LogOk(initial, Record(s, Op(t, k, s.values[k], false)))
  {
    ReplaySnoc(initial, s.log, Op(t, k, s.values[k], false));
  }

  /** The binding of a new key takes effect. */
  lemma BindingLogged<K, V>(initial: map<K, V>, s: State<K, V>, t: Thread, k: K, v: V)
    requires LogOk(initial, s) && k !in s.values
    ensures LogOk(initial, Record(s.(values := s.values[k := v]), Op(t, k, v, true)))
  {
    ReplaySnoc(initial, s.log, Op(t, k, v, true));
  }

  lemma SameLog<K, V>(initial: map<K, V>, s: State<K, V>, s': State<K, V>)
    requires LogOk(initial, s) && s'.values == s.values && s'.log == s.log
    ensures LogOk(initial, s')
  {
  }

  lemma LogKept<K, V>(initial: map<K, V>, s: State<K, V>, t: Thread, made: V)
    requires LogOk(initial, s) && t in s.pcs && PcOk(s, t, s.pcs[t])
    ensures LogOk(initial, Proceed(s, t, made))
  {
    var s' := Proceed(s, t, made);
    match s.pcs[t]
    case Stores(k, _, v) =>
      BindingLogged(initial, s, t, k, v);
      SameLog(initial, Record(s.(values := s.values[k := v]), Op(t, k, v, true)), s');
    case Reads(k, _) =>
      if k in s.values {
        LookupLogged(initial, s, t, k);
      }
    case Rereads(k, _) =>
      if k in s.values {
        LookupLogged(initial, s, t, k);
      }
    case _ => SameLog(initial, s, s');
  }

  lemma OwnPcKept<K, V>(initial: map<K, V>, s: State<K, V>, t: Thread, made: V)
    requires BuiltOnce(initial, s) && Locked(s) && t in s.pcs && PcOk(s, t, s.pcs[t])
    ensures PcOk(Proceed(s, t, made), t, Proceed(s, t, made).pcs[t])
  {
    if s.pcs[t].Rereads? {
      assert s.writer == Some(t);
    }
  }

  lemma BuiltKept<K, V>(initial: map<K, V>, s: State<K, V>, t: Thread, made: V)
    requires Linear(initial, s) && Locked(s) && t in s.pcs
    ensures BuiltOnce(initial, Proceed(s, t, made))
  {
    var s' := Proceed(s, t, made);
    assert PcOk(s, t, s.pcs[t]);
    forall k | k in s'.built ensures k !in initial && (k in s'.values || Building(s', k)) {
      if k in s.built && Building(s, k) && s.writer != Some(t) {
        assert s'.writer == s.writer;
      }
    }
  }

  lemma ProceedKeeps<K, V>(initial: map<K, V>, s: State<K, V>, t: Thread, made: V)
    requires Linear(initial, s) && Locked(s) && t in s.pcs
    ensures Linear(initial, Proceed(s, t, made))
  {
    assert PcOk(s, t, s.pcs[t]);
    LogKept(initial, s, t, made);
    OwnPcKept(initial, s, t, made);
    BuiltKept(initial, s, t, made);
    OthersOk(s, Proceed(s, t, made), t) by {
      LogsGrow(s, t, made);
    }
  }

  lemma LogsGrow<K, V>(s: State<K, V>, t: Thread, made: V)
    requires t in s.pcs
    ensures var s' := Proceed(s, t, made);
            && s.log <= s'.log && ((s'.values == s.values && s'.built == s.built) || HoldsWrite(s.pcs[t]))
            && forall u | u in s'.pcs && u != t :: u in s.pcs && s'.pcs[u] == s.pcs[u]
  {
  }

  lemma StepKeeps<K, V>(initial: map<K, V>, s: State<K, V>, e: Event<K, V>)
    requires Linear(initial, s) && Locked(s)
    ensures Linear(initial, Step(s, e))
  {
    var s' := Step(s, e);
    match e
    case Advance(t, made) => if t in s.pcs { ProceedKeeps(initial, s, t, made); }
    case Call(t, _) => OthersOk(s, s', t); assert BuiltOnce(initial, s');
    case Forget(t) => OthersOk(s, s', t); assert BuiltOnce(initial, s');
  }

  lemma {:induction false} RunIsLinear<K, V>(initial: map<K, V>, es: seq<Event<K, V>>)
    ensures Linear(initial, Run(initial, es))
  {
    if es != [] {
      var front := es[..|es| - 1];
      RunIsLinear(initial, front);
      LockHeld(initial, front);
      StepKeeps(initial, Run(initial, front), es[|es| - 1]);
    }
  }

  /** Linearizability: the operations, in the order in which they took effect, are a run of the sequential object
      that explains the map, and a call that has returned took effect after it began, with its own result. */
  lemma Linearizable<K, V>(initial: map<K, V>, es: seq<Event<K, V>>, t: Thread)
    requires t in Run(initial, es).pcs && Run(initial, es).pcs[t].Returned?
    ensures var s := Run(initial, es); var pc := s.pcs[t];
            && Sequential(initial, s.log) && s.values == Replay(initial, s.log)
            && Effective(s, t, pc.key, pc.since, pc.value, pc.at)
  {
    RunIsLinear(initial, es);
    var s := Run(initial, es);
    assert PcOk(s, t, s.pcs[t]);
  }

  lemma {:induction false} LogGrowsOver<K, V>(initial: map<K, V>, es: seq<Event<K, V>>, n: nat)
    requires n <= |es|
    ensures |Run(initial, es[..n]).log| <= |Run(initial, es).log|
  {
    if n == |es| {
      assert es[..n] == es;
    } else {
      var front, e := es[..|es| - 1], es[|es| - 1];
      assert front[..n] == es[..n];
      LogGrowsOver(initial, front, n);
      if e.Advance? && e.t in Run(initial, front).pcs {
        LogsGrow(Run(initial, front), e.t, e.made);
      }
    }
  }

  lemma SinceKept<K, V>(s: State<K, V>, t: Thread, made: V)
    requires t in s.pcs
    ensures t in Proceed(s, t, made).pcs && Proceed(s, t, made).pcs[t].since == s.pcs[t].since
  {
  }

  /** A call that had not begun after n events takes effect after all that had taken effect by then. */
  lemma {:induction false} BeginsLater<K, V>(initial: map<K, V>, es: seq<Event<K, V>>, n: nat, t: Thread)
    requires n <= |es| && t !in Run(initial, es[..n]).pcs
    ensures t in Run(initial, es).pcs ==> Run(initial, es).pcs[t].since >= |Run(initial, es[..n]).log|
  {
    if n == |es| {
      assert es[..n] == es;
    } else {
      var front, e := es[..|es| - 1], es[|es| - 1];
      assert front[..n] == es[..n];
      var s := Run(initial, front);
      LogGrowsOver(initial, front, n);
      BeginsLater(initial, front, n, t);
      if e.Advance? && e.t in s.pcs {
        SinceKept(s, e.t, e.made);
      }
    }
  }

  /** Real-time order: a call that has returned took effect before any call that begins later. */
  lemma RealTimeOrder<K, V>(initial: map<K, V>, es: seq<Event<K, V>>, m: nat, n: nat, a: Thread, b: Thread)
    requires m <= n <= |es|
    requires a in Run(initial, es[..m]).pcs && Run(initial, es[..m]).pcs[a].Returned?
    requires b !in Run(initial, es[..n]).pcs
    requires b in Run(initial, es).pcs && Run(initial, es).pcs[b].Returned?
    ensures Run(initial, es[..m]).pcs[a].at < Run(initial, es).pcs[b].at
  {
    Linearizable(initial, es[..m], a);
    Linearizable(initial, es, b);
    assert es[..n][..m] == es[..m];
    LogGrowsOver(initial, es[..n], m);
    BeginsLater(initial, es, n, b);
  }

  /** All callers of a key get the value the key is bound to. */
  lemma SameValueForAll<K, V>(initial: map<K, V>, es: seq<Event<K, V>>, t: Thread)
    requires t in Run(initial, es).pcs && Run(initial, es).pcs[t].Returned?
    ensures var s := Run(initial, es);
            s.pcs[t].key in s.values && s.values[s.pcs[t].key] == s.pcs[t].value
  {
    Linearizable(initial, es, t);
    RunIsLinear(initial, es);
  }

  /** The constructor runs at most once for a key, and never for one that was bound at the start. */
  lemma ConstructedAtMostOnce<K, V>(initial: map<K, V>, es: seq<Event<K, V>>, i: nat)
    requires i < |Run(initial, es).built|
    ensures var built := Run(initial, es).built;
            built[i] !in initial && forall j | 0 <= j < |built| && j != i :: built[j] != built[i]
  {
    RunIsLinear(initial, es);
  }

  /** A binding is never replaced by what happens later. */
  lemma {:induction false} BindingsStay<K, V>(initial: map<K, V>, es: seq<Event<K, V>>, n: nat, k: K)
    requires n <= |es| && k in Run(initial, es[..n]).values
    ensures k in Run(initial, es).values && Run(initial, es).values[k] == Run(initial, es[..n]).values[k]
  {
    if n == |es| {
      assert es[..n] == es;
    } else {
      var front := es[..|es| - 1];
      assert front[..n] == es[..n];
      BindingsStay(initial, front, n, k);
      RunIsLinear(initial, front);
      var s, e := Run(initial, front), es[|es| - 1];
      if e.Advance? && e.t in s.pcs {
        assert PcOk(s, e.t, s.pcs[e.t]);
      }
    }
  }

  // ----- Progress -----

  /** n steps of thread t alone. */
  function Advances<K, V>(s: State<K, V>, t: Thread, made: V, n: nat): State<K, V> {
    if n == 0 then s else Step(Advances(s, t, made, n - 1), Advance(t, made))
  }

  ghost predicate LockFree<K, V>(s: State<K, V>) {
    s.writer.None? && s.readers == {}
  }

  /** A call for a bound key returns its value after three steps, without the write lock, and changes nothing. */
  lemma BoundCallReturns<K, V>(s: State<K, V>, t: Thread, key: K, made: V)
    requires LockFree(s) && t !in s.pcs && key in s.values
    ensures var s' := Advances(Step(s, Call(t, key)), t, made, 3);
            && LockFree(s') && s'.values == s.values && s'.built == s.built
            && s'.pcs == s.pcs[t := Returned(key, |s.log|, s.values[key], |s.log|)]
  {
    var s0 := Step(s, Call(t, key));
    var s1 := Step(s0, Advance(t, made));
    assert Advances(s0, t, made, 1) == s1;
    var s2 := Step(s1, Advance(t, made));
    assert Advances(s0, t, made, 2) == s2;
    assert s.readers + {t} - {t} == s.readers;
  }

  /** The first half of a call for an absent key: it has found nothing and holds the write lock. */
  lemma AbsentCallLocks<K, V>(s: State<K, V>, t: Thread, key: K, made: V)
    requires LockFree(s) && t !in s.pcs && key !in s.values
    ensures Advances(Step(s, Call(t, key)), t, made, 4) ==
            s.(writer := Some(t), pcs := s.pcs[t := Rereads(key, |s.log|)])
  {
    var s0 := Step(s, Call(t, key));
    var s1 := Step(s0, Advance(t, made));
    assert Advances(s0, t, made, 1) == s1;
    var s2 := Step(s1, Advance(t, made));
    assert Advances(s0, t, made, 2) == s2;
    var s3 := Step(s2, Advance(t, made));
    assert Advances(s0, t, made, 3) == s3;
    assert s.readers + {t} - {t} == s.readers;
  }

  /** A call for an absent key returns the value made for it after eight steps; the constructor has run once more,
      for this key, and the key is bound to that value. */
  lemma AbsentCallReturns<K, V>(s: State<K, V>, t: Thread, key: K, made: V)
    requires LockFree(s) && t !in s.pcs && key !in s.values
    ensures var s' := Advances(Step(s, Call(t, key)), t, made, 8);
            && LockFree(s') && s'.values == s.values[key := made] && s'.built == s.built + [key]
            && s'.pcs == s.pcs[t := Returned(key, |s.log|, made, |s.log|)]
  {
    AbsentCallLocks(s, t, key, made);
    var s0 := Step(s, Call(t, key));
    var s4 := Advances(s0, t, made, 4);
    var s5 := Step(s4, Advance(t, made));
    assert Advances(s0, t, made, 5) == s5;
    var s6 := Step(s5, Advance(t, made));
    assert Advances(s0, t, made, 6) == s6;
    var s7 := Step(s6, Advance(t, made));
    assert Advances(s0, t, made, 7) == s7;
  }
}
