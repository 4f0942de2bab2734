/** The map of managed Onions under any interleaving of ListenOnion, DialOnion, CloseOnion and CloseAllOnion, each
    lock section a step, on top of the reference count (onion.go). */
module ManagedOnions {
  import opened Base
  import opened OnionRefs

  /** Where a call stands outside getTor and Close. */
  datatype Call =
    | NeedsInsert(name: string)
    | NeedsTor(onion: OnionId)
    | Closing
    | Deleting(name: string, all: bool)

  datatype MapEvent =
    | Listen(g: Goroutine, name: string)
    | Dial(g: Goroutine, name: string)
    | Insert(g: Goroutine)
    | Enter(g: Goroutine)
    | AcquireTor(g: Goroutine, starts: bool)
    | CloseAll(g: Goroutine)
    | CloseOne(g: Goroutine, name: string)
    | Clear(g: Goroutine, name: string)
    | ReleaseTor(g: Goroutine, closes: bool)
    | Delete(g: Goroutine)
    | Finished(g: Goroutine)

  /** `owner` holds onionsMu across sections; Onions are numbered as they are created. */
  datatype Managed = Managed(
    refs: State,
    onions: map<string, OnionId>,
    calls: map<Goroutine, Call>,
    owner: Option<Goroutine>,
    created: nat)

  const Empty: Managed := Managed(Initially, map[], map[], None, 0)

  predicate Idle(s: Managed, g: Goroutine) {
    g !in s.calls && g !in s.refs.pcs
  }

  function At(s: Managed, g: Goroutine, call: Call): Managed {
    s.(calls := s.calls[g := call])
  }

  /** A new Onion takes the name. */
  function Put(s: Managed, g: Goroutine, name: string): Managed {
    At(s.(onions := s.onions[name := s.created], created := s.created + 1), g, NeedsTor(s.created))
  }

  /** The section of Close under the Onion's own mutex, for the Onion of a name. */
  function ClearFlag(s: Managed, g: Goroutine, name: string, all: bool): Managed
    requires name in s.onions
  {
    At(s.(refs := Step(s.refs, Close(g, s.onions[name])), owner := Some(g)), g, Deleting(name, all))
  }

  function DeleteName(s: Managed, g: Goroutine, name: string, all: bool): Managed {
    var s' := s.(onions := s.onions - {name});
    if all then At(s', g, Closing) else s'.(calls := s.calls - {g}, owner := None)
  }

  function MapStep(s: Managed, e: MapEvent): Managed {
    match e
    case Listen(g, name) => if Idle(s, g) && s.owner.None? then Put(s, g, name) else s
    case Dial(g, name) =>
      if !Idle(s, g) || s.owner.Some? then s
      else At(s, g, if name in s.onions then NeedsTor(s.onions[name]) else NeedsInsert(name))
    case Insert(g) =>
      if g in s.calls && s.calls[g].NeedsInsert? && s.owner.None? then Put(s, g, s.calls[g].name) else s
    case Enter(g) =>
      if g in s.calls && s.calls[g].NeedsTor? && g !in s.refs.pcs
      then s.(calls := s.calls - {g}, refs := Step(s.refs, GetTor(g, s.calls[g].onion)))
      else s
    case AcquireTor(g, starts) => s.(refs := Step(s.refs, Acquire(g, starts)))
    case CloseAll(g) => if Idle(s, g) && s.owner.None? then At(s.(owner := Some(g)), g, Closing) else s
    case CloseOne(g, name) =>
      if Idle(s, g) && s.owner.None? && name in s.onions then ClearFlag(s, g, name, false) else s
    case Clear(g, name) =>
      if g in s.calls && s.calls[g].Closing? && g !in s.refs.pcs && name in s.onions
      then ClearFlag(s, g, name, true)
      else s
    case ReleaseTor(g, closes) => s.(refs := Step(s.refs, Release(g, closes)))
    case Delete(g) =>
      if g in s.calls && s.calls[g].Deleting? && g !in s.refs.pcs
      then DeleteName(s, g, s.calls[g].name, s.calls[g].all)
      else s
    case Finished(g) =>
      if g in s.calls && s.calls[g].Closing? && s.onions == map[] then s.(calls := s.calls - {g}, owner := None) else s
  }

  function MapAfter(s: Managed, es: seq<MapEvent>): Managed {
    if es == [] then s else MapStep(MapAfter(s, es[..|es| - 1]), es[|es| - 1])
  }

  function MapRun(es: seq<MapEvent>): Managed {
    MapAfter(Empty, es)
  }

  /** The Onion of a name, if it holds a reference. */
  function Named(s: Managed, name: string): set<OnionId> {
    if name in s.onions && s.onions[name] in s.refs.holders then {s.onions[name]} else {}
  }

  /** The Onion that a step puts out of the reach of CloseAllOnion with a reference: its name is given to another or
      deleted while it holds one, or it acquires one when it has no name. */
  function Orphaned(s: Managed, e: MapEvent): set<OnionId> {
    match e
    case Listen(g, name) => if Idle(s, g) && s.owner.None? then Named(s, name) else {}
    case Insert(g) =>
      if g in s.calls && s.calls[g].NeedsInsert? && s.owner.None? then Named(s, s.calls[g].name) else {}
    case Delete(g) =>
      if g in s.calls && s.calls[g].Deleting? && g !in s.refs.pcs then Named(s, s.calls[g].name) else {}
    case AcquireTor(g, starts) =>
      if g in s.refs.pcs && s.refs.pcs[g].ReadFlag? && !s.refs.pcs[g].already && (s.refs.running || starts) &&
         s.refs.pcs[g].onion !in s.onions.Values
      then {s.refs.pcs[g].onion}
      else {}
    case _ => {}
  }

  function Orphans(es: seq<MapEvent>): set<OnionId> {
    if es == [] then {} else Orphans(es[..|es| - 1]) + Orphaned(MapRun(es[..|es| - 1]), es[|es| - 1])
  }

  // ----- The map and the holders -----

  /** The part of a step that is one of the reference count. */
  function Counting(s: Managed, e: MapEvent): seq<Event> {
    match e
    case Enter(g) =>
      if g in s.calls && s.calls[g].NeedsTor? && g !in s.refs.pcs then [GetTor(g, s.calls[g].onion)] else []
    case AcquireTor(g, starts) => [Acquire(g, starts)]
    case ReleaseTor(g, closes) => [Release(g, closes)]
    case CloseOne(g, name) =>
      if Idle(s, g) && s.owner.None? && name in s.onions then [Close(g, s.onions[name])] else []
    case Clear(g, name) =>
      if g in s.calls && s.calls[g].Closing? && g !in s.refs.pcs && name in s.onions
      then [Close(g, s.onions[name])]
      else []
    case _ => []
  }

  lemma CountingSteps(s: Managed, e: MapEvent)
    ensures var c := Counting(s, e);
            |c| <= 1 && MapStep(s, e).refs == if c == [] then s.refs else Step(s.refs, c[0])
    ensures s.created <= MapStep(s, e).created
  {
  }

  predicate Injective(m: map<string, OnionId>) {
    forall a, b | a in m && b in m && m[a] == m[b] :: a == b
  }

  predicate NamesOk(s: Managed) {
    Injective(s.onions) && forall o | o in s.onions.Values :: o < s.created
  }

  /** The Onions of the reference count have been created. */
  predicate RefsBelow(s: State, bound: nat) {
    && (forall o | o in s.holders :: o < bound)
    && (forall g | g in s.pcs :: s.pcs[g].onion < bound)
  }

  predicate CallsBelow(s: Managed) {
    forall g | g in s.calls && s.calls[g].NeedsTor? :: s.calls[g].onion < s.created
  }

  predicate MapOk(s: Managed) {
    NamesOk(s) && RefsBelow(s.refs, s.created) && CallsBelow(s)
  }

  lemma PutValues(m: map<string, OnionId>, name: string, o: OnionId)
    requires Injective(m) && o !in m.Values
    ensures Injective(m[name := o])
    ensures m[name := o].Values == m.Values - (if name in m then {m[name]} else {}) + {o}
  {
    assert m[name := o][name] == o;
    assert forall a | a in m && a != name :: m[name := o][a] == m[a];
  }

  lemma DeletedValues(m: map<string, OnionId>, name: string)
    requires Injective(m)
    ensures Injective(m - {name})
    ensures (m - {name}).Values == m.Values - if name in m then {m[name]} else {}
  {
    assert forall a | a in m && a != name :: (m - {name})[a] == m[a];
  }

  lemma StepKeepsNames(s: Managed, e: MapEvent)
    requires NamesOk(s)
    ensures NamesOk(MapStep(s, e))
  {
    match e
    case Listen(_, name) => PutValues(s.onions, name, s.created);
    case Insert(g) =>
      if g in s.calls && s.calls[g].NeedsInsert? {
        PutValues(s.onions, s.calls[g].name, s.created);
      }
    case Delete(g) =>
      if g in s.calls && s.calls[g].Deleting? {
        DeletedValues(s.onions, s.calls[g].name);
      }
    case _ => assert MapStep(s, e).onions == s.onions && MapStep(s, e).created == s.created;
  }

  lemma StepBelow(s: State, e: Event, bound: nat)
    requires RefsBelow(s, bound) && (e.GetTor? || e.Close? ==> e.onion < bound)
    ensures RefsBelow(Step(s, e), bound)
  {
  }

  lemma StepKeepsRefs(s: Managed, e: MapEvent)
    requires MapOk(s)
    ensures RefsBelow(MapStep(s, e).refs, MapStep(s, e).created)
  {
    CountingSteps(s, e);
    if Counting(s, e) != [] {
      var r := Counting(s, e)[0];
      assert r.Close? ==> r.onion in s.onions.Values;
      StepBelow(s.refs, r, s.created);
    }
  }

  lemma StepKeepsCalls(s: Managed, e: MapEvent)
    requires MapOk(s)
    ensures CallsBelow(MapStep(s, e))
  {
    if e.Dial? && e.name in s.onions {
      assert s.onions[e.name] in s.onions.Values;
    }
  }

  lemma StepKeepsMap(s: Managed, e: MapEvent)
    requires MapOk(s)
    ensures MapOk(MapStep(s, e))
  {
    StepKeepsNames(s, e);
    StepKeepsRefs(s, e);
    StepKeepsCalls(s, e);
  }

  /** The Onions that hold a reference under no name. */
  function Nameless(s: Managed): set<OnionId> {
    s.refs.holders - s.onions.Values
  }

  lemma StepOrphans(s: Managed, e: MapEvent)
    requires MapOk(s)
    ensures Nameless(MapStep(s, e)) == Nameless(s) + Orphaned(s, e)
  {
    match e
    case Listen(_, name) => PutValues(s.onions, name, s.created);
    case Insert(g) =>
      if g in s.calls && s.calls[g].NeedsInsert? {
        PutValues(s.onions, s.calls[g].name, s.created);
      }
    case Delete(g) =>
      if g in s.calls && s.calls[g].Deleting? {
        DeletedValues(s.onions, s.calls[g].name);
      }
    case _ =>
  }

  /** In any interleaving the Onions that hold a reference under no name are exactly those orphaned by a step of the
      run: nothing ever closes them. */
  lemma {:induction false} NamelessAreOrphans(es: seq<MapEvent>)
    ensures MapOk(MapRun(es)) && Nameless(MapRun(es)) == Orphans(es)
  {
    if es != [] {
      NamelessAreOrphans(es[..|es| - 1]);
      StepKeepsMap(MapRun(es[..|es| - 1]), es[|es| - 1]);
      StepOrphans(MapRun(es[..|es| - 1]), es[|es| - 1]);
    }
  }

  // ----- The mutex of the map -----

  /** Whoever is closing holds onionsMu, and nobody else does. */
  ghost predicate Guarded(s: Managed) {
    forall g :: s.owner == Some(g) <==> g in s.calls && (s.calls[g].Closing? || s.calls[g].Deleting?)
  }

  lemma StepGuards(s: Managed, e: MapEvent)
    requires Guarded(s)
    ensures Guarded(MapStep(s, e))
  {
  }

  lemma {:induction false} RunIsGuarded(es: seq<MapEvent>)
    ensures Guarded(MapRun(es))
  {
    if es != [] {
      RunIsGuarded(es[..|es| - 1]);
      StepGuards(MapRun(es[..|es| - 1]), es[|es| - 1]);
    }
  }

  /** From its first section to its return nobody but a CloseAllOnion or CloseOnion changes the map. */
  lemma OnlyTheCloserChangesTheMap(es: seq<MapEvent>, g: Goroutine, e: MapEvent)
    requires var s := MapRun(es); g in s.calls && (s.calls[g].Closing? || s.calls[g].Deleting?) && e.g != g
    ensures MapStep(MapRun(es), e).onions == MapRun(es).onions
  {
    RunIsGuarded(es);
    assert MapRun(es).owner == Some(g);
  }

  // ----- The reference count -----

  function Projection(es: seq<MapEvent>): seq<Event> {
    if es == [] then []
    else Projection(es[..|es| - 1]) + Counting(MapRun(es[..|es| - 1]), es[|es| - 1])
  }

  /** Every run is a run of the reference count, so all that holds of those holds here. */
  lemma {:induction false} RefinesRefs(es: seq<MapEvent>)
    ensures MapRun(es).refs == Run(Projection(es))
  {
    if es != [] {
      var front := es[..|es| - 1];
      RefinesRefs(front);
      var more := Counting(MapRun(front), es[|es| - 1]);
      CountingSteps(MapRun(front), es[|es| - 1]);
      RunMore(Projection(front), more);
    }
  }

  lemma RunMore(es: seq<Event>, more: seq<Event>)
    requires |more| <= 1
    ensures Run(es + more) == if more == [] then Run(es) else Step(Run(es), more[0])
  {
    if more == [] {
      assert es + more == es;
    } else {
      assert (es + more)[..|es|] == es;
    }
  }

  lemma RunsWhileHeld(es: seq<MapEvent>)
    ensures MapRun(es).refs.holders != {} ==> MapRun(es).refs.running
  {
    RefinesRefs(es);
    RefsCountHolders(Projection(es));
  }

  // ----- CloseAllOnion -----

  lemma NoNames(s: Managed)
    requires s.onions == map[]
    ensures Nameless(s) == s.refs.holders
  {
    assert s.onions.Values == {};
  }

  /** When CloseAllOnion returns, the Onions with a reference are exactly the orphans of the run so far, and Tor runs
      as long as there are any. */
  lemma AfterCloseAll(es: seq<MapEvent>, g: Goroutine)
    requires var s := MapRun(es); g in s.calls && s.calls[g].Closing? && s.onions == map[]
    ensures var s := MapStep(MapRun(es), Finished(g));
            && s.owner.None? && s.onions == map[] && s.refs.holders == Orphans(es)
            && (Orphans(es) != {} ==> s.refs.running)
  {
    NamelessAreOrphans(es);
    RunsWhileHeld(es);
    NoNames(MapRun(es));
  }

  /** The goroutine's call is under way to a reference for the Onion. */
  predicate Awaits(s: Managed, g: Goroutine, o: OnionId) {
    || (g in s.calls && s.calls[g] == NeedsTor(o))
    || (g in s.refs.pcs && s.refs.pcs[g] == ReadFlag(o, false))
  }

  function Awaited(s: Managed): set<OnionId> {
    (set g | g in s.calls && s.calls[g].NeedsTor? :: s.calls[g].onion) +
    (set g | g in s.refs.pcs && s.refs.pcs[g].ReadFlag? && !s.refs.pcs[g].already :: s.refs.pcs[g].onion)
  }

  lemma AwaitedIs(s: Managed, o: OnionId)
    ensures o in Awaited(s) <==> exists g :: Awaits(s, g, o)
  {
    if g :| Awaits(s, g, o) {
      assert g in s.calls && s.calls[g] == NeedsTor(o) ==> o == s.calls[g].onion;
    }
    if o in Awaited(s) {
      if g :| g in s.calls && s.calls[g].NeedsTor? && s.calls[g].onion == o {
        assert Awaits(s, g, o);
      } else {
        var g :| g in s.refs.pcs && s.refs.pcs[g].ReadFlag? && !s.refs.pcs[g].already && s.refs.pcs[g].onion == o;
        assert Awaits(s, g, o);
      }
    }
  }

  /** A step of getTor, with success. */
  predicate GetsTor(e: MapEvent) {
    e.Enter? || (e.AcquireTor? && e.starts)
  }

  /** Such a step keeps who holds or awaits a reference. */
  lemma StepAwaits(s: Managed, e: MapEvent, o: OnionId)
    requires GetsTor(e)
    ensures var s' := MapStep(s, e);
            o in s'.refs.holders + Awaited(s') <==> o in s.refs.holders + Awaited(s)
  {
    var s' := MapStep(s, e);
    AwaitedIs(s, o);
    AwaitedIs(s', o);
    assert forall g | g != e.g :: Awaits(s', g, o) <==> Awaits(s, g, o);
    assert o in s.refs.holders ==> o in s'.refs.holders;
    assert Awaits(s, e.g, o) ==> o in s'.refs.holders || Awaits(s', e.g, o);
    assert Awaits(s', e.g, o) || o in s'.refs.holders ==> o in s.refs.holders || Awaits(s, e.g, o);
  }

  lemma {:induction false} CallsComplete(s: Managed, es: seq<MapEvent>)
    requires forall e | e in es :: GetsTor(e)
    ensures var s' := MapAfter(s, es); s'.refs.holders + Awaited(s') == s.refs.holders + Awaited(s)
    ensures MapAfter(s, es).onions == s.onions
  {
    if es != [] {
      var front, e := es[..|es| - 1], es[|es| - 1];
      assert GetsTor(e) && forall x | x in front :: GetsTor(x) by {
        assert forall x | x in front :: x in es;
        assert e in es;
      }
      CallsComplete(s, front);
      forall o {
        StepAwaits(MapAfter(s, front), e, o);
      }
    }
  }

  /** After CloseAllOnion, once the calls then under way have gone through getTor with success and nothing else has
      happened, the Onions with a reference are exactly the orphans and those whose calls were under way; no name
      leads to any of them. */
  lemma HoldersAfterCloseAll(es: seq<MapEvent>, g: Goroutine, more: seq<MapEvent>)
    requires var s := MapRun(es); g in s.calls && s.calls[g].Closing? && s.onions == map[]
    requires forall e | e in more :: GetsTor(e)
    requires Awaited(MapAfter(MapStep(MapRun(es), Finished(g)), more)) == {}
    ensures var s := MapStep(MapRun(es), Finished(g)); var s' := MapAfter(s, more);
            s'.refs.holders == Orphans(es) + Awaited(s) && s'.onions == map[]
  {
    var s := MapStep(MapRun(es), Finished(g));
    AfterCloseAll(es, g);
    CallsComplete(s, more);
  }

  // ----- What escapes -----

  lemma Next(es: seq<MapEvent>, e: MapEvent) returns (es': seq<MapEvent>)
    ensures es' == es + [e] && MapRun(es') == MapStep(MapRun(es), e)
  {
    es' := es + [e];
    assert es'[..|es|] == es;
  }

  /** A ListenOnion that has registered its Onion and not yet started Tor outlives a whole CloseAllOnion. */
  lemma ListenOutlivesCloseAll(name: string) returns (es: seq<MapEvent>)
    ensures var s := MapRun(es);
            && s == Managed(State(true, 1, {0}, map[]), map[], map[], None, 1)
            && Orphans(es) == {0}
  {
    es := Next([], Listen(0, name));
    es := Next(es, CloseAll(1));
    es := Next(es, Clear(1, name));
    assert MapRun(es) ==
           Managed(Initially, map[name := 0], map[0 := NeedsTor(0), 1 := Deleting(name, true)], Some(1), 1);
    es := Next(es, Delete(1));
    es := Next(es, Finished(1));
    assert MapRun(es) == Managed(Initially, map[], map[0 := NeedsTor(0)], None, 1);
    es := Next(es, Enter(0));
    assert MapRun(es) == Managed(State(false, 0, {}, map[0 := ReadFlag(0, false)]), map[], map[], None, 1);
    es := Next(es, AcquireTor(0, true));
    NamelessAreOrphans(es);
  }

  lemma BothEnter(es: seq<MapEvent>, name: string) returns (es': seq<MapEvent>)
    requires MapRun(es) == Managed(Initially, map[name := 1], map[0 := NeedsTor(0), 1 := NeedsTor(1)], None, 2)
    ensures MapRun(es') == Managed(State(true, 2, {0, 1}, map[]), map[name := 1], map[], None, 2)
  {
    es' := Next(es, Enter(0));
    es' := Next(es', AcquireTor(0, true));
    assert MapRun(es') == Managed(State(true, 1, {0}, map[]), map[name := 1], map[1 := NeedsTor(1)], None, 2);
    es' := Next(es', Enter(1));
    es' := Next(es', AcquireTor(1, true));
  }

  /** Two DialOnion calls to one address both find no Onion; the second takes the name from the first. */
  lemma TwoDialsDisplace(name: string) returns (es: seq<MapEvent>)
    ensures var s := MapRun(es);
            && s == Managed(State(true, 2, {0, 1}, map[]), map[name := 1], map[], None, 2)
            && Orphans(es) == {0}
  {
    es := Next([], Dial(0, name));
    es := Next(es, Dial(1, name));
    assert MapRun(es) ==
           Managed(Initially, map[], map[0 := NeedsInsert(name), 1 := NeedsInsert(name)], None, 0);
    es := Next(es, Insert(0));
    assert MapRun(es) ==
           Managed(Initially, map[name := 0], map[0 := NeedsTor(0), 1 := NeedsInsert(name)], None, 1);
    es := Next(es, Insert(1));
    assert MapRun(es) == Managed(Initially, map[name := 1], map[0 := NeedsTor(0), 1 := NeedsTor(1)], None, 2);
    es := BothEnter(es, name);
    NamelessAreOrphans(es);
    assert map[name := 1][name] == 1 && map[name := 1].Values == {1};
  }

  // ----- Whole calls -----

  predicate AtRest(s: Managed) {
    s.calls == map[] && s.refs.pcs == map[] && s.owner.None?
  }

  /** The end of a call: getTor for the Onion it has found or made. */
  lemma GetsReference(s: Managed, g: Goroutine, o: OnionId, starts: bool)
    requires s.calls == map[g := NeedsTor(o)] && s.refs.pcs == map[]
    ensures var s' := MapStep(MapStep(s, Enter(g)), AcquireTor(g, starts));
            && s'.calls == map[] && s'.refs.pcs == map[] && s'.onions == s.onions && s'.owner == s.owner
            && s'.refs.running == (s.refs.running || starts)
            && s'.refs.holders ==
               if s'.refs.running || o in s.refs.holders then s.refs.holders + {o} else s.refs.holders
  {
    var s1 := MapStep(s, Enter(g));
    assert s.calls - {g} == map[];
    assert s1.refs.pcs == map[g := ReadFlag(o, o in s.refs.holders)];
    assert s1.refs.pcs - {g} == map[];
  }

  /** Run without interruption, ListenOnion puts a new Onion under the name and gets it a reference. */
  lemma UninterruptedListen(s: Managed, g: Goroutine, name: string, starts: bool)
    requires AtRest(s) && s.created !in s.refs.holders
    ensures var s' := MapStep(MapStep(MapStep(s, Listen(g, name)), Enter(g)), AcquireTor(g, starts));
            && AtRest(s') && s'.onions == s.onions[name := s.created]
            && s'.refs.running == (s.refs.running || starts)
            && s'.refs.holders == if s'.refs.running then s.refs.holders + {s.created} else s.refs.holders
  {
    GetsReference(MapStep(s, Listen(g, name)), g, s.created, starts);
  }

  /** DialOnion uses the Onion under the address, or puts a new one there. */
  lemma UninterruptedDial(s: Managed, g: Goroutine, name: string, starts: bool)
    requires AtRest(s) && s.created !in s.refs.holders && (s.refs.holders != {} ==> s.refs.running)
    ensures var s1 := MapStep(MapStep(s, Dial(g, name)), Insert(g));
            var s' := MapStep(MapStep(s1, Enter(g)), AcquireTor(g, starts));
            && AtRest(s') && name in s'.onions
            && s'.onions == (if name in s.onions then s.onions else s.onions[name := s.created])
            && s'.refs.running == (s.refs.running || starts)
            && s'.refs.holders == if s'.refs.running then s.refs.holders + {s'.onions[name]} else s.refs.holders
  {
    var s1 := MapStep(MapStep(s, Dial(g, name)), Insert(g));
    GetsReference(s1, g, s1.onions[name], starts);
  }

  /** CloseOnion takes the Onion's reference and its name. */
  lemma UninterruptedCloseOne(s: Managed, g: Goroutine, name: string, closes: bool)
    requires AtRest(s) && name in s.onions
    ensures var s' := MapStep(MapStep(MapStep(s, CloseOne(g, name)), ReleaseTor(g, closes)), Delete(g));
            AtRest(s') && s'.onions == s.onions - {name} && s'.refs.holders == s.refs.holders - {s.onions[name]}
  {
    var o := s.onions[name];
    var s1 := MapStep(s, CloseOne(g, name));
    assert s1.calls == map[g := Deleting(name, false)];
    assert s1.refs.pcs == if o in s.refs.holders then map[g := ClearedFlag(o)] else map[];
    var s2 := MapStep(s1, ReleaseTor(g, closes));
    assert s2.refs.pcs == map[] by {
      assert s1.refs.pcs - {g} == map[];
    }
    assert s2.calls - {g} == map[];
  }

  // ----- One call at a time -----

  predicate Starts(e: MapEvent) {
    e.Listen? || e.Dial? || e.CloseAll? || e.CloseOne?
  }

  /** Calls do not overlap, and ListenOnion is given no name whose Onion holds a reference. */
  predicate CarefulStep(s: Managed, e: MapEvent) {
    && (Starts(e) ==> s.calls == map[] && s.refs.pcs == map[])
    && (e.Listen? ==> Named(s, e.name) == {})
  }

  predicate Careful(es: seq<MapEvent>) {
    es != [] ==> Careful(es[..|es| - 1]) && CarefulStep(MapRun(es[..|es| - 1]), es[|es| - 1])
  }

  predicate CallOk(s: Managed, call: Call) {
    match call
    case NeedsInsert(name) => name !in s.onions
    case NeedsTor(o) => o in s.onions.Values
    case Closing => true
    case Deleting(name, _) => Named(s, name) == {}
  }

  /** At most one call is under way, and what it has found out is still so. */
  predicate Undisturbed(s: Managed) {
    && (forall g, k | g in s.calls && k in s.calls :: g == k)
    && (forall g, k | g in s.refs.pcs && k in s.refs.pcs :: g == k)
    && (forall g, k | g in s.calls && k in s.refs.pcs :: g == k && s.calls[g].Deleting? && s.refs.pcs[k].ClearedFlag?)
    && (forall g | g in s.calls :: CallOk(s, s.calls[g]))
    && (forall g | g in s.refs.pcs && s.refs.pcs[g].ReadFlag? :: s.refs.pcs[g].onion in s.onions.Values)
  }

  lemma NothingOrphaned(s: Managed, e: MapEvent)
    requires Undisturbed(s) && CarefulStep(s, e)
    ensures Orphaned(s, e) == {}
  {
    if (e.Insert? || e.Delete?) && e.g in s.calls {
      assert CallOk(s, s.calls[e.g]);
    }
  }

  lemma PutUndisturbed(s: Managed, g: Goroutine, name: string)
    requires s.refs.pcs == map[] && s.calls.Keys <= {g}
    ensures Undisturbed(Put(s, g, name))
  {
    assert Put(s, g, name).onions[name] == s.created;
  }

  lemma ClearUndisturbed(s: Managed, g: Goroutine, name: string, all: bool)
    requires s.refs.pcs == map[] && s.calls.Keys <= {g} && name in s.onions
    ensures Undisturbed(ClearFlag(s, g, name, all))
  {
  }

  lemma StepUndisturbed(s: Managed, e: MapEvent)
    requires Undisturbed(s) && CarefulStep(s, e)
    ensures Undisturbed(MapStep(s, e))
  {
    match e
    case Listen(g, name) => if s.calls == map[] && s.refs.pcs == map[] { PutUndisturbed(s, g, name); }
    case Insert(g) => if g in s.calls && s.calls[g].NeedsInsert? { PutUndisturbed(s, g, s.calls[g].name); }
    case CloseOne(g, name) => if name in s.onions { ClearUndisturbed(s, g, name, false); }
    case Clear(g, name) =>
      if g in s.calls && s.calls[g].Closing? && name in s.onions { ClearUndisturbed(s, g, name, true); }
    case Dial(_, name) => if name in s.onions { assert s.onions[name] in s.onions.Values; }
    case _ =>
  }

  /** Then nothing is ever orphaned: every Onion with a reference has a name, and CloseAllOnion leaves none with one. */
  lemma {:induction false} CarefulLeavesNone(es: seq<MapEvent>)
    requires Careful(es)
    ensures Undisturbed(MapRun(es)) && Orphans(es) == {} && Nameless(MapRun(es)) == {}
  {
    if es != [] {
      var s, e := MapRun(es[..|es| - 1]), es[|es| - 1];
      CarefulLeavesNone(es[..|es| - 1]);
      NothingOrphaned(s, e);
      StepUndisturbed(s, e);
    }
    NamelessAreOrphans(es);
  }
}
