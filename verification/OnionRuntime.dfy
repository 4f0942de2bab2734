/** Managed Onions and the Tor instance they share, used by one goroutine (onion.go). */
module OnionRuntime {

  class Onion {
    const name: string
    var hasRef: bool

    constructor (name: string)
      ensures this.name == name && !hasRef
    {
      this.name := name;
      hasRef := false;
    }
  }

  class TorRuntime {
    var running: bool
    var torpRefs: int
    var onions: map<string, Onion>

    /** Every Onion there is, managed by this package or created by an application. */
    ghost var all: set<Onion>

    /** Those that ListenOnion or DialOnion ever put into the map. */
    ghost var managed: set<Onion>

    ghost function Holders(): set<Onion>
      reads `all, all
    {
      set o | o in all && o.hasRef
    }

    /** The managed Onions that hold a reference and are in the map no longer. */
    ghost function Displaced(): set<Onion>
      reads this, all
    {
      Holders() * managed - onions.Values
    }

    ghost predicate Valid()
      reads this, all
    {
      && managed <= all
      && (forall n | n in onions :: onions[n] in managed)
      && Injective(onions)
      && torpRefs == |Holders()|
      && (!running ==> torpRefs == 0)
    }

    constructor ()
      ensures Valid() && onions == map[] && all == managed == {} && !running
    {
      running, torpRefs, onions, all, managed := false, 0, map[], {}, {};
    }

    method NewOnion(name: string) returns (o: Onion)
      requires Valid()
      modifies `all
      ensures Valid() && fresh(o) && all == old(all) + {o} && Holders() == old(Holders())
      ensures o.name == name && !o.hasRef
    {
      o := new Onion(name);
      all := all + {o};
      assert Holders() == old(Holders());
    }

    /** `starts` is the outcome of starting Tor, should that be needed. */
    method GetTor(o: Onion, starts: bool) returns (ok: bool)
      requires Valid() && o in all
      modifies `running, `torpRefs, o`hasRef
      ensures Valid() && ok == running == (old(running) || starts)
      ensures Holders() == if ok then old(Holders()) + {o} else old(Holders())
      ensures o in onions.Values ==> Displaced() == old(Displaced())
    {
      var alreadyHasRef := o.hasRef;
      if !running {
        if !starts {
          return false;
        }
        running := true;
      }
      if !alreadyHasRef {
        o.hasRef := true;
        torpRefs := torpRefs + 1;
      }
      assert Holders() == old(Holders()) + {o};
      ok := true;
    }

    /** `closes` is the outcome of closing Tor, should that be needed. */
    method Close(o: Onion, closes: bool) returns (ok: bool)
      requires Valid() && o in all
      modifies `running, `torpRefs, o`hasRef
      ensures Valid() && Holders() == old(Holders()) - {o}
      ensures running == (old(running) && !(o in old(Holders()) && Holders() == {} && closes))
      ensures ok == !(o in old(Holders()) && Holders() == {} && !closes)
    {
      ghost var holders := Holders();
      var hasRef := o.hasRef;
      if hasRef {
        assert o in holders;
        o.hasRef := false;
      }
      assert Holders() == holders - {o};
      if !hasRef {
        return true;
      }
      assert |holders| == |holders - {o}| + 1;
      assert running;
      torpRefs := torpRefs - 1;
      assert Holders() == holders - {o};
      if torpRefs <= 0 {
        if !closes {
          return false;
        }
        running := false;
        torpRefs := 0;
      }
      assert Holders() == holders - {o};
      ok := true;
    }

    /** Closing the Onion of a name and forgetting the name. */
    method CloseManaged(name: string, closes: bool)
      requires Valid() && name in onions
      modifies `running, `torpRefs, `onions, onions[name]
      ensures Valid() && onions == old(onions) - {name}
      ensures onions.Values == old(onions.Values) - {old(onions)[name]}
      ensures Holders() == old(Holders()) - {old(onions)[name]}
      ensures !old(onions)[name].hasRef
      ensures running == StaysUp(old(running), old(Holders()) * {old(onions)[name]}, Holders(), closes)
    {
      var o := onions[name];
      RemovedValue(onions, name);
      var _ := Close(o, closes);
      onions := onions - {name};
    }

    /** Closes the managed Onions, in any order; a failure to close Tor does not stop it. Tor stops exactly when the
        last reference was a managed one and closing succeeds. */
    method DrainOnions(closes: bool)
      requires Valid()
      modifies `running, `torpRefs, `onions, onions.Values
      ensures Valid() && onions == map[]
      ensures Holders() == old(Holders()) - old(onions.Values)
      ensures running == StaysUp(old(running), old(Holders() * onions.Values), Holders(), closes)
    {
      ghost var before := onions.Values;
      while onions != map[]
        invariant Valid() && onions.Values <= before
        invariant Holders() == old(Holders()) - (before - onions.Values)
        invariant running == StaysUp(old(running), old(Holders()) * (before - onions.Values), Holders(), closes)
        decreases |onions|
      {
        var name :| name in onions;
        ghost var values := onions.Values;
        assert onions[name] in values;
        RemovedSize(onions, name);
        DrainedOne(old(Holders()), before, values, onions[name]);
        StaysUpStep(old(running), old(Holders()), before, values, onions[name], closes);
        CloseManaged(name, closes);
      }
    }

    method CloseAllOnion(closes: bool)
      requires Valid()
      modifies `running, `torpRefs, `onions, onions.Values
      ensures Valid() && onions == map[]
      ensures Holders() == old(Holders()) - old(onions.Values)
      ensures torpRefs == old(torpRefs) - |old(Holders()) * old(onions.Values)|
      ensures Displaced() == old(Displaced())
      ensures (forall o | o in managed :: !o.hasRef) <==> old(Displaced()) == {}
      ensures running == (old(running) && !(old(Holders() * onions.Values) != {} && Holders() == {} && closes))
    {
      SplitSize(Holders(), onions.Values);
      DrainOnions(closes);
    }

    /** Closes the Onion managed under the name, if there is one. */
    method CloseOnion(name: string, closes: bool)
      requires Valid()
      modifies `running, `torpRefs, `onions, if name in onions then {onions[name]} else {}
      ensures Valid() && onions == old(onions) - {name}
      ensures Holders() == old(Holders()) - if name in old(onions) then {old(onions)[name]} else {}
      ensures Displaced() == old(Displaced())
      ensures running == (old(running) && !(Holders() != old(Holders()) && Holders() == {} && closes))
    {
      if name in onions {
        CloseManaged(name, closes);
      }
    }

    /** A new Onion enters the map. */
    method Manage(name: string) returns (o: Onion)
      requires Valid()
      modifies `onions, `all, `managed
      ensures Valid() && fresh(o) && o in onions.Values && onions == old(onions)[name := o]
      ensures all == old(all) + {o} && managed == old(managed) + {o} && Holders() == old(Holders())
      ensures Displaced() == old(Displaced()) +
                             if name in old(onions) && old(onions[name].hasRef) then {old(onions)[name]} else {}
    {
      o := NewOnion(name);
      AddedValue(onions, name, o);
      onions := onions[name := o];
      managed := managed + {o};
    }

    /** ListenOnion: a new Onion takes over the name. One that was managed under it before keeps its reference and
        is out of the reach of CloseAllOnion from then on. */
    method ListenOnion(name: string, starts: bool) returns (o: Onion, ok: bool)
      requires Valid()
      modifies `running, `torpRefs, `onions, `all, `managed
      ensures Valid() && fresh(o) && all == old(all) + {o} && onions == old(onions)[name := o]
      ensures ok == (old(running) || starts) && managed == old(managed) + {o}
      ensures Holders() == old(Holders()) + if ok then {o} else {}
      ensures Displaced() == old(Displaced()) +
                             if name in old(onions) && old(onions[name].hasRef) then {old(onions)[name]} else {}
    {
      o := Manage(name);
      ok := GetTor(o, starts);
    }

    method FindOrManage(addr: string) returns (o: Onion)
      requires Valid()
      modifies `onions, `all, `managed
      ensures Valid() && addr in onions && onions[addr] == o && o in onions.Values
      ensures addr in old(onions) ==> onions == old(onions) && all == old(all) && managed == old(managed)
      ensures addr !in old(onions) ==>
                && fresh(o) && onions == old(onions)[addr := o]
                && all == old(all) + {o} && managed == old(managed) + {o}
      ensures Holders() == old(Holders()) && Displaced() == old(Displaced())
    {
      if addr in onions {
        return onions[addr];
      }
      o := Manage(addr);
    }

    /** DialOnion: the Onion managed under the address, or a new one that is from then on. */
    method DialOnion(addr: string, starts: bool) returns (o: Onion, ok: bool)
      requires Valid()
      modifies `running, `torpRefs, `onions, `all, `managed, if addr in onions then {onions[addr]} else {}
      ensures Valid() && addr in onions && onions[addr] == o
      ensures addr in old(onions) ==> onions == old(onions) && all == old(all) && managed == old(managed)
      ensures addr !in old(onions) ==>
                && fresh(o) && onions == old(onions)[addr := o]
                && all == old(all) + {o} && managed == old(managed) + {o}
      ensures ok == (old(running) || starts)
      ensures Holders() == old(Holders()) + if ok then {o} else {}
      ensures Displaced() == old(Displaced())
    {
      o := FindOrManage(addr);
      ok := GetTor(o, starts);
    }

    method ListenTwice(name: string) returns (first: Onion, second: Onion)
      requires Valid()
      modifies `running, `torpRefs, `onions, `all, `managed
      ensures Valid() && fresh(first) && fresh(second) && first in Displaced()
      ensures onions == old(onions)[name := second]
    {
      ghost var before := onions;
      var ok;
      first, ok := ListenOnion(name, true);
      assert first in Holders();
      second, ok := ListenOnion(name, true);
      Overwritten(before, name, first, second);
    }

    /** Two listeners under one name, from any state, then CloseAllOnion: the first Onion keeps Tor running. */
    method DisplacedOnionHoldsTor(name: string, closes: bool) returns (first: Onion)
      requires Valid()
      modifies `running, `torpRefs, `onions, `all, `managed, onions.Values
      ensures Valid() && onions == map[] && running
      ensures fresh(first) && first in managed && first.hasRef
    {
      var second;
      first, second := ListenTwice(name);
      CloseAllOnion(closes);
      assert first in Holders();
    }
  }

  lemma Overwritten<K, V>(m: map<K, V>, k: K, v: V, w: V)
    ensures m[k := v][k := w] == m[k := w]
  {
  }

  lemma RemovedSize<K, V>(m: map<K, V>, k: K)
    requires k in m
    ensures |m - {k}| < |m|
  {
    assert (m - {k}).Keys == m.Keys - {k};
  }

  lemma DrainedOne<T>(all: set<T>, before: set<T>, left: set<T>, x: T)
    requires x in left && left <= before
    ensures all - (before - (left - {x})) == all - (before - left) - {x}
  {
  }

  /** Whether Tor runs after references have been given up: it stops when there were any, none is left and closing
      succeeds. */
  ghost predicate StaysUp<T>(running: bool, released: set<T>, left: set<T>, closes: bool) {
    running && !(released != {} && left == {} && closes)
  }

  /** Giving up one reference more. */
  lemma StaysUpStep<T>(running: bool, all: set<T>, before: set<T>, left: set<T>, x: T, closes: bool)
    requires x in left && left <= before
    ensures var h, h' := all - (before - left), all - (before - (left - {x}));
            StaysUp(StaysUp(running, all * (before - left), h, closes), h * {x}, h', closes) ==
            StaysUp(running, all * (before - (left - {x})), h', closes)
  {
    var h, h' := all - (before - left), all - (before - (left - {x}));
    assert h' == h - {x};
    assert all * (before - (left - {x})) == all * (before - left) + h * {x};
  }

  predicate Injective<K, V(==)>(m: map<K, V>) {
    forall j, k | j in m && k in m && m[j] == m[k] :: j == k
  }

  lemma RemovedValue<K, V>(m: map<K, V>, k: K)
    requires k in m && Injective(m)
    ensures (m - {k}).Values == m.Values - {m[k]}
  {
    assert forall j | j in m && j != k :: (m - {k})[j] == m[j];
  }

  lemma AddedValue<K, V>(m: map<K, V>, k: K, v: V)
    requires Injective(m) && v !in m.Values
    ensures m[k := v].Values == (if k in m then m.Values - {m[k]} else m.Values) + {v}
    ensures Injective(m[k := v])
  {
    assert m[k := v][k] == v;
    assert forall j | j in m && j != k :: m[k := v][j] == m[j];
  }

  lemma SplitSize<T>(a: set<T>, b: set<T>)
    ensures |a - b| == |a| - |a * b|
  {
    assert a == (a - b) + a * b;
  }
}
