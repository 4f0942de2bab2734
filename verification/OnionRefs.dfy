/** The reference count of the shared Tor instance under any interleaving of getTor and Close (onion.go). */
module OnionRefs {
  import opened Base

  type OnionId = nat
  type Goroutine = nat

  /** Between the section under the Onion's own mutex and the section under torpMu. */
  datatype Pc =
    | ReadFlag(onion: OnionId, already: bool)
    | ClearedFlag(onion: OnionId)

  datatype Event =
    | GetTor(g: Goroutine, onion: OnionId)
    | Acquire(g: Goroutine, starts: bool)
    | Close(g: Goroutine, onion: OnionId)
    | Release(g: Goroutine, closes: bool)

  datatype State = State(running: bool, refs: int, holders: set<OnionId>, pcs: map<Goroutine, Pc>)

  const Initially: State := State(false, 0, {}, map[])

  function Move(s: State, g: Goroutine, pc: Pc): State {
    s.(pcs := s.pcs[g := pc])
  }

  function Finish(s: State, g: Goroutine): State {
    s.(pcs := s.pcs - {g})
  }

  /** The section of getTor under torpMu: `starts` is the outcome of starting Tor. */
  function AcquireNow(s: State, g: Goroutine, onion: OnionId, already: bool, starts: bool): State {
    if !s.running && !starts then Finish(s, g)
    else if already then Finish(s.(running := true), g)
    else Finish(s.(running := true, holders := s.holders + {onion}, refs := s.refs + 1), g)
  }

  /** The section of Close under torpMu: `closes` is the outcome of closing Tor. */
  function ReleaseNow(s: State, g: Goroutine, closes: bool): State {
    if !s.running then Finish(s, g)
    else if s.refs - 1 > 0 then Finish(s.(refs := s.refs - 1), g)
    else if closes then Finish(s.(running := false, refs := 0), g)
    else Finish(s.(refs := s.refs - 1), g)
  }

  function Step(s: State, e: Event): State {
    match e
    case GetTor(g, o) => if g in s.pcs then s else Move(s, g, ReadFlag(o, o in s.holders))
    case Acquire(g, starts) =>
      if g in s.pcs && s.pcs[g].ReadFlag? then AcquireNow(s, g, s.pcs[g].onion, s.pcs[g].already, starts) else s
    case Close(g, o) =>
      if g in s.pcs || o !in s.holders then s else Move(s.(holders := s.holders - {o}), g, ClearedFlag(o))
    case Release(g, closes) =>
      if g in s.pcs && s.pcs[g].ClearedFlag? then ReleaseNow(s, g, closes) else s
  }

  function Run(es: seq<Event>): State {
    if es == [] then Initially else Step(Run(es[..|es| - 1]), es[|es| - 1])
  }

  function Closers(s: State): set<Goroutine> {
    set g | g in s.pcs && s.pcs[g].ClearedFlag?
  }

  /** A goroutine that read its flag before another one set it counts the Onion a second time. */
  predicate CountsAgain(s: State, e: Event) {
    && e.Acquire? && e.g in s.pcs && s.pcs[e.g].ReadFlag?
    && !s.pcs[e.g].already && s.pcs[e.g].onion in s.holders && (s.running || e.starts)
  }

  /** How often that has happened. */
  function Surplus(es: seq<Event>): nat {
    if es == [] then 0
    else Surplus(es[..|es| - 1]) + if CountsAgain(Run(es[..|es| - 1]), es[|es| - 1]) then 1 else 0
  }

  predicate Counted(s: State, surplus: nat) {
    && s.refs == |s.holders| + |Closers(s)| + surplus
    && (!s.running ==> s.refs == 0)
  }

  lemma AcquireKeeps(s: State, g: Goroutine, starts: bool, surplus: nat)
    requires Counted(s, surplus) && g in s.pcs && s.pcs[g].ReadFlag?
    ensures var e := Acquire(g, starts);
            Counted(Step(s, e), surplus + if CountsAgain(s, e) then 1 else 0)
  {
    assert Closers(Step(s, Acquire(g, starts))) == Closers(s);
    if s.pcs[g].onion in s.holders {
      assert s.holders + {s.pcs[g].onion} == s.holders;
    }
  }

  /** A closer never finds Tor gone, and closes it only when nobody else counts. */
  lemma ReleaseKeeps(s: State, g: Goroutine, closes: bool, surplus: nat)
    requires Counted(s, surplus) && g in s.pcs && s.pcs[g].ClearedFlag?
    ensures Counted(Step(s, Release(g, closes)), surplus) && s.running && s.refs > 0
    ensures Step(s, Release(g, closes)).running <==>
            !closes || s.holders != {} || Closers(s) != {g} || surplus > 0
  {
    assert g in Closers(s);
    assert Closers(Step(s, Release(g, closes))) == Closers(s) - {g};
    assert |Closers(s) - {g}| == |Closers(s)| - 1;
    assert Closers(s) - {g} == {} <==> Closers(s) == {g};
  }

  lemma FlagKeeps(s: State, g: Goroutine, pc: Pc, surplus: nat)
    requires Counted(s, surplus) && g !in s.pcs
    ensures pc.ReadFlag? ==> Counted(Move(s, g, pc), surplus)
    ensures pc.ClearedFlag? && pc.onion in s.holders ==>
              Counted(Move(s.(holders := s.holders - {pc.onion}), g, pc), surplus)
  {
    assert Closers(Move(s, g, pc)) == if pc.ClearedFlag? then Closers(s) + {g} else Closers(s);
    assert Closers(Move(s.(holders := s.holders - {pc.onion}), g, pc)) == Closers(Move(s, g, pc));
  }

  lemma StepKeeps(s: State, e: Event, surplus: nat)
    requires Counted(s, surplus)
    ensures Counted(Step(s, e), surplus + if CountsAgain(s, e) then 1 else 0)
  {
    match e
    case GetTor(g, o) => if g !in s.pcs { FlagKeeps(s, g, ReadFlag(o, o in s.holders), surplus); }
    case Acquire(g, starts) => if g in s.pcs && s.pcs[g].ReadFlag? { AcquireKeeps(s, g, starts, surplus); }
    case Close(g, o) =>
      if g !in s.pcs && o in s.holders {
        FlagKeeps(s, g, ClearedFlag(o), surplus);
      }
    case Release(g, closes) => if g in s.pcs && s.pcs[g].ClearedFlag? { ReleaseKeeps(s, g, closes, surplus); }
  }

  /** Any number of goroutines on any Onions: the count is the number of Onions that hold a reference, plus the
      closers that have cleared their flag and not yet decremented, plus what was counted again. So it is never
      negative, and Tor runs as long as anyone holds it. */
  lemma {:induction false} RefsCountHolders(es: seq<Event>)
    ensures var s := Run(es);
            && s.refs == |s.holders| + |Closers(s)| + Surplus(es)
            && (!s.running ==> s.refs == 0)
            && (s.holders != {} ==> s.running)
  {
    if es != [] {
      RefsCountHolders(es[..|es| - 1]);
      StepKeeps(Run(es[..|es| - 1]), es[|es| - 1], Surplus(es[..|es| - 1]));
    }
  }

  /** In any interleaving Tor is closed only by the last closer, when no Onion holds a reference, and always by it
      when nothing was counted again; a closer never finds it gone. */
  lemma ClosedOnlyWhenUnheld(es: seq<Event>, g: Goroutine, closes: bool)
    requires g in Run(es).pcs && Run(es).pcs[g].ClearedFlag?
    ensures var s := Run(es);
            && s.running
            && (Step(s, Release(g, closes)).running <==>
                  !closes || s.holders != {} || Closers(s) != {g} || Surplus(es) > 0)
  {
    RefsCountHolders(es);
    ReleaseKeeps(Run(es), g, closes, Surplus(es));
  }

  lemma {:induction false} SurplusGrows(es: seq<Event>, n: nat)
    requires n <= |es|
    ensures Surplus(es[..n]) <= Surplus(es)
  {
    if n < |es| {
      SurplusGrows(es[..|es| - 1], n);
      assert es[..|es| - 1][..n] == es[..n];
    } else {
      assert es[..n] == es;
    }
  }

  // ----- Coming to rest -----

  lemma Next(es: seq<Event>, e: Event) returns (es': seq<Event>)
    ensures es' == es + [e] && es <= es' && Run(es') == Step(Run(es), e)
    ensures Exclusive(es) && ExclusiveStep(Run(es), e) ==> Exclusive(es')
    ensures Surplus(es') == Surplus(es) + if CountsAgain(Run(es), e) then 1 else 0
  {
    es' := es + [e];
    assert es'[..|es|] == es;
  }

  lemma Unused(s: State) returns (g: Goroutine)
    ensures g !in s.pcs
  {
    g := UnusedBelow(s.pcs.Keys);
  }

  lemma {:induction false} UnusedBelow(used: set<Goroutine>) returns (g: Goroutine)
    ensures forall k | k in used :: k < g
  {
    g := 0;
    if used != {} {
      var k :| k in used;
      var above := UnusedBelow(used - {k});
      g := if k < above then above else k + 1;
      assert forall x | x in used && x != k :: x in used - {k};
    }
  }

  /** A goroutine that is free closes every Onion that holds a reference. */
  lemma {:induction false} CloseHolders(es: seq<Event>) returns (es': seq<Event>)
    requires Surplus(es) == 0
    ensures es <= es' && Surplus(es') == 0 && Run(es').pcs == Run(es).pcs && Run(es').holders == {}
    decreases |Run(es).holders|
  {
    es' := es;
    var s := Run(es);
    if s.holders != {} {
      var o :| o in s.holders;
      var g := Unused(s);
      es' := Next(es', Close(g, o));
      RefsCountHolders(es');
      assert s.pcs[g := ClearedFlag(o)] - {g} == s.pcs;
      es' := Next(es', Release(g, true));
      es' := CloseHolders(es');
    }
  }

  /** With no Onion holding a reference, pending calls finish without counting anything again. */
  lemma {:induction false} FinishCalls(es: seq<Event>) returns (es': seq<Event>)
    requires Surplus(es) == 0 && Run(es).holders == {}
    ensures es <= es' && Surplus(es') == 0 && Run(es').pcs == map[] && Run(es').holders == {}
    decreases |Run(es).pcs|
  {
    es' := es;
    var s := Run(es);
    if s.pcs != map[] {
      var g :| g in s.pcs;
      assert (s.pcs - {g}).Keys == s.pcs.Keys - {g};
      if s.pcs[g].ReadFlag? {
        es' := Next(es', Acquire(g, false));
        es' := CloseHolders(es');
      } else {
        es' := Next(es', Release(g, true));
      }
      es' := FinishCalls(es');
    }
  }

  /** One more getTor and Close of an unheld Onion stop Tor when nobody else counts. */
  lemma LastCall(es: seq<Event>) returns (es': seq<Event>)
    requires Surplus(es) == 0 && Run(es).pcs == map[] && Run(es).holders == {}
    ensures es <= es' && !Run(es').running
  {
    es' := es;
    if Run(es).running {
      RefsCountHolders(es);
      assert Closers(Run(es)) == {};
      es' := Next(es', GetTor(0, 0));
      es' := Next(es', Acquire(0, false));
      es' := Next(es', Close(0, 0));
      es' := Next(es', Release(0, true));
    }
  }

  ghost predicate CanStop(es: seq<Event>) {
    exists es' :: es <= es' && !Run(es').running
  }

  /** After a run Tor can still be stopped by some calls if and only if nothing was counted again in it; otherwise
      it stays up for good, and the count above the number of its holders and closers. */
  lemma CanStopExactlyWithoutSurplus(es: seq<Event>)
    ensures CanStop(es) <==> Surplus(es) == 0
    ensures Surplus(es) > 0 ==> forall es' | es <= es' :: Run(es').running
  {
    if Surplus(es) == 0 {
      var es' := CloseHolders(es);
      es' := FinishCalls(es');
      es' := LastCall(es');
    } else {
      forall es' | es <= es' ensures Run(es').running {
        RefsCountHolders(es');
        SurplusGrows(es', |es|);
        assert es'[..|es|] == es;
      }
    }
  }

  // ----- One goroutine for each Onion -----

  predicate ExclusiveStep(s: State, e: Event) {
    e.GetTor? || e.Close? ==> forall g | g in s.pcs :: s.pcs[g].onion != e.onion
  }

  /** Every Onion is used by one goroutine at a time. */
  predicate Exclusive(es: seq<Event>) {
    es != [] ==> Exclusive(es[..|es| - 1]) && ExclusiveStep(Run(es[..|es| - 1]), es[|es| - 1])
  }

  /** What goroutines read of the flags is still so. */
  predicate Current(s: State) {
    && (forall g | g in s.pcs && s.pcs[g].ReadFlag? :: s.pcs[g].already == (s.pcs[g].onion in s.holders))
    && (forall g, k | g in s.pcs && k in s.pcs && s.pcs[g].onion == s.pcs[k].onion :: g == k)
  }

  /** Then nothing is counted again. */
  lemma {:induction false} ExclusiveIsExact(es: seq<Event>)
    requires Exclusive(es)
    ensures Surplus(es) == 0 && Current(Run(es))
  {
    if es != [] {
      ExclusiveIsExact(es[..|es| - 1]);
    }
  }

  /** Run without interruption, the sections of getTor and of Close do what the sequential methods promise. */
  lemma UninterruptedCalls(s: State, g: Goroutine, o: OnionId, starts: bool, closes: bool)
    requires Counted(s, 0) && s.pcs == map[]
    ensures var t := Step(Step(s, GetTor(g, o)), Acquire(g, starts));
            && t.pcs == map[] && t.running == (s.running || starts)
            && t.holders == if t.running then s.holders + {o} else s.holders
    ensures var t := Step(Step(s, Close(g, o)), Release(g, closes));
            && t.pcs == map[] && t.holders == s.holders - {o}
            && t.running == (s.running && !(o in s.holders && t.holders == {} && closes))
  {
    assert Closers(s) == {};
    assert s.pcs[g := ReadFlag(o, o in s.holders)] - {g} == map[];
    assert s.pcs[g := ClearedFlag(o)] - {g} == map[];
    if o in s.holders {
      assert |s.holders - {o}| == |s.holders| - 1;
    }
  }

  // ----- At rest -----

  /** Tor is up without anyone counting: the last closer failed to close it, or a goroutine started it on a flag that
      another one's Close had cleared since. The next acquisition that counts, or a closing that succeeds, ends it. */
  function LeftUp(es: seq<Event>): bool {
    if es == [] then false
    else
      var front, e := es[..|es| - 1], es[|es| - 1];
      var s := Run(front);
      match e
      case Acquire(g, starts) =>
        if g !in s.pcs || !s.pcs[g].ReadFlag? || (!s.running && !starts) then LeftUp(front)
        else s.pcs[g].already && (!s.running || LeftUp(front))
      case Release(g, closes) =>
        if g !in s.pcs || !s.pcs[g].ClearedFlag? || !s.running || s.refs > 1 then LeftUp(front) else !closes
      case _ => LeftUp(front)
  }

  lemma {:induction false} LeftUpIsUncounted(es: seq<Event>)
    ensures LeftUp(es) <==> Run(es).running && Run(es).refs == 0
  {
    if es != [] {
      var front, e := es[..|es| - 1], es[|es| - 1];
      var s := Run(front);
      LeftUpIsUncounted(front);
      RefsCountHolders(front);
      if e.Release? && e.g in s.pcs && s.pcs[e.g].ClearedFlag? {
        ReleaseKeeps(s, e.g, e.closes, Surplus(front));
      }
    }
  }

  /** After any run Tor is up if and only if an Onion holds a reference, a closer has yet to decrement, an Onion was
      counted again, or Tor was left up. */
  lemma RunningExactlyWhen(es: seq<Event>)
    ensures var s := Run(es);
            s.running <==> s.holders != {} || Closers(s) != {} || Surplus(es) > 0 || LeftUp(es)
  {
    LeftUpIsUncounted(es);
    RefsCountHolders(es);
  }

  /** Once every call has returned and every Onion is closed, Tor is closed if and only if no Onion was counted again
      and Tor was not left up. */
  lemma ClosedAtRestExactlyWhen(es: seq<Event>)
    requires Run(es).pcs == map[] && Run(es).holders == {}
    ensures !Run(es).running <==> Surplus(es) == 0 && !LeftUp(es)
  {
    RunningExactlyWhen(es);
    assert Closers(Run(es)) == {};
  }

  /** Closing Tor never fails. */
  predicate AllCloses(es: seq<Event>) {
    forall e | e in es && e.Release? :: e.closes
  }

  /** With one goroutine at a time on each Onion, and closing that succeeds, Tor is up exactly while an Onion holds a
      reference or a closer has yet to decrement. */
  lemma {:induction false} ExclusiveIsNeverLeftUp(es: seq<Event>)
    requires Exclusive(es) && AllCloses(es)
    ensures !LeftUp(es)
    ensures var s := Run(es); s.running <==> s.holders != {} || Closers(s) != {}
  {
    if es != [] {
      var front, e := es[..|es| - 1], es[|es| - 1];
      assert AllCloses(front) by {
        assert forall x | x in front :: x in es;
      }
      assert e in es;
      ExclusiveIsNeverLeftUp(front);
      ExclusiveIsExact(front);
    }
    ExclusiveIsExact(es);
    RunningExactlyWhen(es);
  }

  /** Every call has returned, every Onion is closed, and Tor runs. */
  predicate StillUp(es: seq<Event>) {
    var s := Run(es);
    s.pcs == map[] && s.holders == {} && s.running
  }

  /** Two goroutines in getTor on one Onion both see no reference and count it twice, so that closing the Onion
      leaves Tor running for nobody. */
  lemma SharedOnionCountsTwice(o: OnionId) returns (es: seq<Event>)
    ensures StillUp(es) && Run(es).refs == Surplus(es) == 1 && !LeftUp(es) && AllCloses(es)
  {
    es := Next([], GetTor(0, o));
    es := Next(es, GetTor(1, o));
    assert Run(es).pcs == map[0 := ReadFlag(o, false), 1 := ReadFlag(o, false)];
    es := Next(es, Acquire(0, true));
    es := Next(es, Acquire(1, true));
    assert Run(es) == State(true, 2, {o}, map[]);
    es := Next(es, Close(0, o));
    assert Run(es) == State(true, 2, {}, map[0 := ClearedFlag(o)]);
    es := Next(es, Release(0, true));
    LeftUpIsUncounted(es);
  }

  /** One goroutine whose Close fails to stop Tor. */
  lemma FailedCloseLeavesUp(o: OnionId) returns (es: seq<Event>)
    ensures StillUp(es) && Exclusive(es) && Surplus(es) == 0 && LeftUp(es)
  {
    es := Next([], GetTor(0, o));
    es := Next(es, Acquire(0, true));
    assert Run(es) == State(true, 1, {o}, map[]);
    es := Next(es, Close(0, o));
    assert Run(es) == State(true, 1, {}, map[0 := ClearedFlag(o)]);
    es := Next(es, Release(0, false));
    LeftUpIsUncounted(es);
  }

  /** A goroutine that has seen the reference starts Tor again after another one has closed the Onion, and counts
      nothing. */
  lemma StaleFlagLeavesUp(o: OnionId) returns (es: seq<Event>)
    ensures StillUp(es) && AllCloses(es) && Surplus(es) == 0 && LeftUp(es)
  {
    es := Next([], GetTor(0, o));
    es := Next(es, Acquire(0, true));
    assert Run(es) == State(true, 1, {o}, map[]);
    es := Next(es, GetTor(0, o));
    es := Next(es, Close(1, o));
    assert Run(es) == State(true, 1, {}, map[0 := ReadFlag(o, true), 1 := ClearedFlag(o)]);
    es := Next(es, Release(1, true));
    assert Run(es) == State(false, 0, {}, map[0 := ReadFlag(o, true)]);
    es := Next(es, Acquire(0, true));
    LeftUpIsUncounted(es);
  }
}
