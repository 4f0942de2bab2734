/** A Garlic as the code keeps it: fields that are filled lazily and reset by Close (garlic.go). */
module Garlics {
  import opened Base
  import Spec = GarlicSpec

  class Garlic {
    const name: string
    var hasSam: bool
    var samOpen: bool
    var hasPrimary: bool
    var streamSub: Option<string>
    var streamSubsByPort: map<Spec.Ports, string>
    var persistentFromPort: int
    ghost var created: seq<Spec.Creation>

    ghost function View(): Spec.Cache
      reads this
    {
      Spec.Cache(hasSam, samOpen, hasPrimary, streamSub, streamSubsByPort, persistentFromPort, created)
    }

    constructor (name: string)
      ensures this.name == (if name == "" then "onramp-garlic" else name) && View() == Spec.Unused
    {
      this.name := if name == "" then "onramp-garlic" else name;
      hasSam, samOpen, hasPrimary := false, false, false;
      streamSub, streamSubsByPort, persistentFromPort := None, map[], 0;
      created := [];
    }

    method EnsureSam(l: Spec.Luck) returns (ok: bool)
      modifies `hasSam, `samOpen
      ensures View() == Spec.WithSam(old(View()), l) && ok == hasSam
    {
      if !hasSam {
        hasSam, samOpen := l.sam, l.sam;
      }
      ok := hasSam;
    }

    method SetupPrimarySession(l: Spec.Luck) returns (ok: bool)
      modifies `hasPrimary
      ensures View() == Spec.WithPrimary(old(View()), l) && ok == hasPrimary
    {
      if !hasPrimary {
        hasPrimary := l.primary;
      }
      ok := hasPrimary;
    }

    /** The result is what the cache holds for the ports afterwards. */
    method SetupStreamSubSession(l: Spec.Luck) returns (sub: Option<string>)
      modifies `hasPrimary, `streamSub, `created
      ensures View() == Spec.Setup(old(View()), name, Spec.Ports(0, 0), l)
      ensures sub == Spec.Cached(View(), Spec.Ports(0, 0))
    {
      if streamSub.None? {
        var ok := SetupPrimarySession(l);
        if !ok {
          return None;
        }
        streamSub := if l.sub then Some(name + "-stream") else None;
        if streamSub.Some? {
          created := created + [Spec.Creation(Spec.Ports(0, 0), streamSub.value)];
        }
      }
      sub := streamSub;
    }

    method SetupStreamSubSessionWithPorts(from: int, to: int, l: Spec.Luck) returns (sub: Option<string>)
      requires Spec.ValidPort(from) && Spec.ValidPort(to) && Spec.Ports(0, 0) !in streamSubsByPort
      modifies `hasPrimary, `streamSub, `streamSubsByPort, `created
      ensures View() == Spec.Setup(old(View()), name, Spec.Ports(from, to), l)
      ensures sub == Spec.Cached(View(), Spec.Ports(from, to))
    {
      if from == 0 && to == 0 {
        sub := SetupStreamSubSession(l);
        return;
      }
      var ports := Spec.Ports(from, to);
      if ports in streamSubsByPort {
        return Some(streamSubsByPort[ports]);
      }
      var ok := SetupPrimarySession(l);
      if !ok || !l.sub {
        return None;
      }
      var id := name + "-stream-" + Spec.Decimal(from) + "-" + Spec.Decimal(to);
      streamSubsByPort := streamSubsByPort[ports := id];
      created := created + [Spec.Creation(ports, id)];
      sub := Some(id);
    }

    method GetOrCreatePersistentFromPort(l: Spec.Luck) returns (port: Option<int>)
      modifies `persistentFromPort
      ensures View() == Spec.WithFromPort(old(View()), l)
      ensures port == if persistentFromPort == 0 then None else Some(persistentFromPort)
    {
      if persistentFromPort != 0 {
        return Some(persistentFromPort);
      }
      if l.random.None? {
        return None;
      }
      persistentFromPort := Spec.MIN_EPHEMERAL + l.random.value;
      port := Some(persistentFromPort);
    }

    method ListenStream(l: Spec.Luck) returns (sub: Option<string>)
      requires Spec.CacheOk(View(), name)
      modifies this
      ensures Spec.CacheOk(View(), name) && View() == Spec.Stream(old(View()), name, l)
      ensures sub == Spec.Served(View(), Some(0), []) == if hasSam then streamSub else None
      ensures Spec.Works(l) ==> sub == Some(name + "-stream")
    {
      Spec.DialFromKeeps(View(), name, 0, 0, l);
      if Spec.Works(l) {
        Spec.StreamServes(View(), name, l);
      }
      var ok := EnsureSam(l);
      if !ok {
        return None;
      }
      sub := SetupStreamSubSession(l);
    }

    /** toPort is None when the address does not parse. */
    method DialContextToPort(toPort: Option<int>, fromPorts: seq<int>, l: Spec.Luck) returns (sub: Option<string>)
      requires Spec.CacheOk(View(), name) && l.Valid()
      modifies this
      ensures Spec.CacheOk(View(), name) && View() == Spec.DialToPort(old(View()), name, toPort, fromPorts, l)
      ensures sub == Spec.Served(View(), toPort, fromPorts)
      ensures toPort.Some? && Spec.ValidPort(toPort.value) && |fromPorts| <= 1 && Spec.Works(l) &&
              (fromPorts != [] ==> Spec.ValidPort(fromPorts[0])) ==>
                var from := Spec.DialsFrom(old(persistentFromPort), toPort.value, fromPorts, l.random);
                from.Some? ==>
                  && Spec.ValidPort(from.value)
                  && sub == Some(Spec.SubId(name, Spec.Ports(from.value, toPort.value)))
    {
      Spec.DialToPortKeeps(View(), name, toPort, fromPorts, l);
      if toPort.Some? && Spec.ValidPort(toPort.value) && |fromPorts| <= 1 && Spec.Works(l) &&
         (fromPorts != [] ==> Spec.ValidPort(fromPorts[0])) &&
         Spec.DialsFrom(persistentFromPort, toPort.value, fromPorts, l.random).Some?
      {
        Spec.DialServes(View(), name, toPort.value, fromPorts, l);
      }
      sub := RouteToPort(toPort, fromPorts, l);
    }

    method RouteToPort(toPort: Option<int>, fromPorts: seq<int>, l: Spec.Luck) returns (sub: Option<string>)
      requires Spec.Ports(0, 0) !in streamSubsByPort && l.Valid()
      requires persistentFromPort == 0 || Spec.ValidPort(persistentFromPort)
      modifies this
      ensures View() == Spec.DialToPort(old(View()), name, toPort, fromPorts, l)
      ensures sub == Spec.Served(View(), toPort, fromPorts)
    {
      if |fromPorts| > 1 || toPort.None? || !Spec.ValidPort(toPort.value) {
        return None;
      }
      if |fromPorts| == 1 && !Spec.ValidPort(fromPorts[0]) {
        return None;
      }
      var selected := SelectFromPort(toPort.value, fromPorts, l);
      if selected.None? {
        return None;
      }
      sub := DialFrom(selected.value, toPort.value, l);
    }

    method SelectFromPort(toPort: int, fromPorts: seq<int>, l: Spec.Luck) returns (selected: Option<int>)
      modifies `persistentFromPort
      ensures View() == if fromPorts == [] && toPort != 0 then Spec.WithFromPort(old(View()), l) else old(View())
      ensures selected == Spec.LocalPort(View(), toPort, fromPorts)
    {
      if fromPorts != [] {
        return Some(fromPorts[0]);
      }
      if toPort == 0 {
        return Some(0);
      }
      selected := GetOrCreatePersistentFromPort(l);
    }

    method DialFrom(from: int, toPort: int, l: Spec.Luck) returns (sub: Option<string>)
      requires Spec.ValidPort(from) && Spec.ValidPort(toPort) && Spec.Ports(0, 0) !in streamSubsByPort
      modifies `hasSam, `samOpen, `hasPrimary, `streamSub, `streamSubsByPort, `created
      ensures View() == Spec.DialFrom(old(View()), name, from, toPort, l)
      ensures sub == if hasSam then Spec.Cached(View(), Spec.Ports(from, toPort)) else None
    {
      var ok := EnsureSam(l);
      if !ok {
        return None;
      }
      sub := SetupStreamSubSessionWithPorts(from, toPort, l);
    }

    method DialContext(toPort: Option<int>, l: Spec.Luck) returns (sub: Option<string>)
      requires Spec.CacheOk(View(), name) && l.Valid()
      modifies this
      ensures Spec.CacheOk(View(), name) && View() == Spec.Dial(old(View()), name, toPort, l)
      ensures sub == Spec.Served(View(), toPort, [])
    {
      if toPort.None? || !Spec.ValidPort(toPort.value) {
        return None;
      }
      if toPort.value != 0 {
        sub := DialContextToPort(toPort, [], l);
      } else {
        sub := ListenStream(l);
      }
    }

    /** The SAM connection is closed and stays in its field. */
    method Close()
      modifies this
      ensures hasSam == old(hasSam) && !samOpen
      ensures View() == Spec.Closed(old(View())) && Spec.CacheOk(View(), name)
    {
      samOpen := false;
      hasPrimary := false;
      streamSub := None;
      streamSubsByPort := map[];
      persistentFromPort := 0;
      created := [];
    }
  }
}
