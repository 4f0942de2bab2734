/** The lazily created sessions of a Garlic and the cache of stream subsessions by port (garlic.go). A session is
    represented by its SAM identifier. */
module GarlicSpec {
  import opened Base

  const MAX_PORT: int := 65535
  const MIN_EPHEMERAL: int := 1024

  datatype Ports = Ports(from: int, to: int)

  datatype Creation = Creation(ports: Ports, id: string)

  /** `sam` says whether there is a SAM connection in its field and `samOpen` whether that has not been closed;
      `created` lists the stream subsessions created since the last Close. */
  datatype Cache = Cache(
    sam: bool,
    samOpen: bool,
    primary: bool,
    streamSub: Option<string>,
    byPort: map<Ports, string>,
    fromPort: int,
    created: seq<Creation>)

  const Unused: Cache := Cache(false, false, false, None, map[], 0, [])

  /** How the calls into SAM and the random source turn out; `random` is the offset drawn for an ephemeral port. */
  datatype Luck = Luck(sam: bool, primary: bool, sub: bool, random: Option<nat>) {
    predicate Valid() {
      random.Some? ==> random.value <= MAX_PORT - MIN_EPHEMERAL
    }
  }

  predicate ValidPort(port: int) {
    0 <= port <= MAX_PORT
  }

  const DIGITS: string := "0123456789"

  function Decimal(n: nat): string {
    if n < 10 then [DIGITS[n]] else Decimal(n / 10) + [DIGITS[n % 10]]
  }

  function SubId(name: string, ports: Ports): string
    requires ValidPort(ports.from) && ValidPort(ports.to)
  {
    if ports == Ports(0, 0) then name + "-stream"
    else name + "-stream-" + Decimal(ports.from) + "-" + Decimal(ports.to)
  }

  function WithSam(c: Cache, l: Luck): Cache {
    c.(sam := c.sam || l.sam, samOpen := if c.sam then c.samOpen else l.sam)
  }

  function WithPrimary(c: Cache, l: Luck): Cache {
    c.(primary := c.primary || l.primary)
  }

  /** What is cached for the ports; (0, 0) is the plain stream subsession. */
  function Cached(c: Cache, ports: Ports): Option<string> {
    if ports == Ports(0, 0) then c.streamSub
    else if ports in c.byPort then Some(c.byPort[ports])
    else None
  }

  function Insert(c: Cache, ports: Ports, id: string): Cache {
    var c' := c.(created := c.created + [Creation(ports, id)]);
    if ports == Ports(0, 0) then c'.(streamSub := Some(id)) else c'.(byPort := c.byPort[ports := id])
  }

  /** The stream subsession for the ports, cached or created. */
  function Setup(c: Cache, name: string, ports: Ports, l: Luck): Cache
    requires ValidPort(ports.from) && ValidPort(ports.to)
  {
    if Cached(c, ports).Some? then c
    else
      var c' := WithPrimary(c, l);
      if c'.primary && l.sub then Insert(c', ports, SubId(name, ports)) else c'
  }

  function WithFromPort(c: Cache, l: Luck): Cache {
    if c.fromPort != 0 || l.random.None? then c else c.(fromPort := MIN_EPHEMERAL + l.random.value)
  }

  /** ListenStream, and DialContext to a destination without a port. */
  function Stream(c: Cache, name: string, l: Luck): Cache {
    var c' := WithSam(c, l);
    if c'.sam then Setup(c', name, Ports(0, 0), l) else c'
  }

  /** The local port of a dial: the one given, or the persistent one when only the destination names a port.
      None when the source of randomness fails. */
  function LocalPort(c: Cache, toPort: int, fromPorts: seq<int>): Option<int> {
    if fromPorts != [] then Some(fromPorts[0])
    else if toPort == 0 then Some(0)
    else if c.fromPort != 0 then Some(c.fromPort)
    else None
  }

  function DialFrom(c: Cache, name: string, from: int, toPort: int, l: Luck): Cache
    requires ValidPort(toPort)
  {
    var c' := WithSam(c, l);
    if c'.sam && ValidPort(from) then Setup(c', name, Ports(from, toPort), l) else c'
  }

  /** DialContextToPort: toPort is None when the address does not parse. */
  function DialToPort(c: Cache, name: string, toPort: Option<int>, fromPorts: seq<int>, l: Luck): Cache {
    if |fromPorts| > 1 || toPort.None? || !ValidPort(toPort.value) then c
    else if |fromPorts| == 1 && !ValidPort(fromPorts[0]) then c
    else
      var c' := if fromPorts == [] && toPort.value != 0 then WithFromPort(c, l) else c;
      match LocalPort(c', toPort.value, fromPorts)
      case None => c'
      case Some(from) => DialFrom(c', name, from, toPort.value, l)
  }

  /** What a dial returns from the cache it leaves behind: the subsession of the selected local port and the
      destination's port, None when the ports are refused, none could be selected or SAM is down. */
  function Served(c: Cache, toPort: Option<int>, fromPorts: seq<int>): Option<string> {
    if |fromPorts| > 1 || toPort.None? || !ValidPort(toPort.value) then None
    else if |fromPorts| == 1 && !ValidPort(fromPorts[0]) then None
    else
      match LocalPort(c, toPort.value, fromPorts)
      case None => None
      case Some(from) => if c.sam then Cached(c, Ports(from, toPort.value)) else None
  }

  function Dial(c: Cache, name: string, toPort: Option<int>, l: Luck): Cache {
    if toPort.None? || !ValidPort(toPort.value) then c
    else if toPort.value != 0 then DialToPort(c, name, toPort, [], l)
    else Stream(c, name, l)
  }

  /** Close drops every session, and closes the SAM connection but leaves it in its field. */
  function Closed(c: Cache): Cache {
    Unused.(sam := c.sam)
  }

  datatype Call =
    | Listen(l: Luck)
    | DialAddr(toPort: Option<int>, l: Luck)
    | DialPort(toPort: Option<int>, fromPorts: seq<int>, l: Luck)
    | CloseAll

  function Step(c: Cache, name: string, call: Call): Cache {
    match call
    case Listen(l) => Stream(c, name, l)
    case DialAddr(toPort, l) => Dial(c, name, toPort, l)
    case DialPort(toPort, fromPorts, l) => DialToPort(c, name, toPort, fromPorts, l)
    case CloseAll => Closed(c)
  }

  function Run(name: string, calls: seq<Call>): Cache {
    if calls == [] then Unused else Step(Run(name, calls[..|calls| - 1]), name, calls[|calls| - 1])
  }

  /** The random source draws an offset below the size of the ephemeral range. */
  predicate Fair(calls: seq<Call>) {
    forall call | call in calls && !call.CloseAll? :: call.l.Valid()
  }

  predicate CreationOk(c: Cache, name: string, made: Creation) {
    && ValidPort(made.ports.from) && ValidPort(made.ports.to)
    && made.id == SubId(name, made.ports)
    && Cached(c, made.ports) == Some(made.id)
  }

  /** Everything cached was created since the last Close. */
  predicate Listed(c: Cache) {
    && (c.streamSub.Some? ==> Creation(Ports(0, 0), c.streamSub.value) in c.created)
    && (forall p | p in c.byPort :: p != Ports(0, 0) && Creation(p, c.byPort[p]) in c.created)
  }

  predicate MadeOk(c: Cache, name: string) {
    forall i | 0 <= i < |c.created| :: CreationOk(c, name, c.created[i])
  }

  predicate Distinct(created: seq<Creation>) {
    forall i, j | 0 <= i < j < |created| :: created[i].ports != created[j].ports
  }

  predicate CacheOk(c: Cache, name: string) {
    && (c.streamSub.Some? || c.byPort != map[] ==> c.primary)
    && (c.fromPort == 0 || MIN_EPHEMERAL <= c.fromPort <= MAX_PORT)
    && Listed(c) && MadeOk(c, name) && Distinct(c.created)
  }

  lemma InsertCaches(c: Cache, ports: Ports, id: string, other: Ports)
    requires Cached(c, ports).None?
    ensures Cached(Insert(c, ports, id), other) == if other == ports then Some(id) else Cached(c, other)
  {
  }

  lemma InsertMakes(c: Cache, name: string, ports: Ports, made: Creation)
    requires Cached(c, ports).None? && ValidPort(ports.from) && ValidPort(ports.to)
    requires made == Creation(ports, SubId(name, ports)) || CreationOk(c, name, made)
    ensures CreationOk(Insert(c, ports, SubId(name, ports)), name, made)
    ensures CreationOk(c, name, made) ==> made.ports != ports
  {
    InsertCaches(c, ports, SubId(name, ports), made.ports);
  }

  lemma InsertLists(c: Cache, ports: Ports, id: string)
    requires Listed(c)
    ensures Listed(Insert(c, ports, id))
  {
    var c' := Insert(c, ports, id);
    assert c'.created[|c.created|] == Creation(ports, id);
    assert forall made | made in c.created :: made in c'.created;
  }

  lemma InsertMadeOk(c: Cache, name: string, ports: Ports)
    requires MadeOk(c, name) && Distinct(c.created) && Cached(c, ports).None?
    requires ValidPort(ports.from) && ValidPort(ports.to)
    ensures var c' := Insert(c, ports, SubId(name, ports)); MadeOk(c', name) && Distinct(c'.created)
  {
    var c' := Insert(c, ports, SubId(name, ports));
    forall i | 0 <= i < |c'.created|
      ensures CreationOk(c', name, c'.created[i]) && (i < |c.created| ==> c'.created[i].ports != ports)
    {
      InsertMakes(c, name, ports, c'.created[i]);
    }
  }

  lemma {:induction false} InsertKeeps(c: Cache, name: string, ports: Ports)
    requires CacheOk(c, name) && c.primary && Cached(c, ports).None?
    requires ValidPort(ports.from) && ValidPort(ports.to)
    ensures CacheOk(Insert(c, ports, SubId(name, ports)), name)
  {
    InsertLists(c, ports, SubId(name, ports));
    InsertMadeOk(c, name, ports);
  }

  /** The caches agree on the subsessions. */
  lemma SameCreations(c: Cache, c': Cache, name: string)
    requires CacheOk(c, name)
    requires c'.created == c.created && c'.streamSub == c.streamSub && c'.byPort == c.byPort
    requires c.primary ==> c'.primary
    requires c'.fromPort == c.fromPort || MIN_EPHEMERAL <= c'.fromPort <= MAX_PORT
    ensures CacheOk(c', name)
  {
    forall i | 0 <= i < |c'.created| ensures CreationOk(c', name, c'.created[i]) {
      assert CreationOk(c, name, c.created[i]);
    }
  }

  lemma {:induction false} SetupKeeps(c: Cache, name: string, ports: Ports, l: Luck)
    requires CacheOk(c, name) && ValidPort(ports.from) && ValidPort(ports.to)
    ensures CacheOk(Setup(c, name, ports, l), name)
  {
    var c' := WithPrimary(c, l);
    SameCreations(c, c', name);
    if Cached(c, ports).None? && c'.primary && l.sub {
      InsertKeeps(c', name, ports);
    }
  }

  lemma {:induction false} DialFromKeeps(c: Cache, name: string, from: int, toPort: int, l: Luck)
    requires CacheOk(c, name) && ValidPort(toPort)
    ensures CacheOk(DialFrom(c, name, from, toPort, l), name)
  {
    SameCreations(c, WithSam(c, l), name);
    if ValidPort(from) {
      SetupKeeps(WithSam(c, l), name, Ports(from, toPort), l);
    }
  }

  lemma {:induction false} DialToPortKeeps(c: Cache, name: string, toPort: Option<int>, fromPorts: seq<int>, l: Luck)
    requires CacheOk(c, name) && l.Valid()
    ensures CacheOk(DialToPort(c, name, toPort, fromPorts, l), name)
  {
    SameCreations(c, WithFromPort(c, l), name);
    if toPort.Some? && ValidPort(toPort.value) {
      var c' := if fromPorts == [] && toPort.value != 0 then WithFromPort(c, l) else c;
      var from := LocalPort(c', toPort.value, fromPorts);
      if from.Some? {
        DialFromKeeps(c', name, from.value, toPort.value, l);
      }
    }
  }

  lemma {:induction false} StepKeeps(c: Cache, name: string, call: Call)
    requires CacheOk(c, name) && (call.CloseAll? || call.l.Valid())
    ensures CacheOk(Step(c, name, call), name)
  {
    match call
    case Listen(l) => DialFromKeeps(c, name, 0, 0, l);
    case DialAddr(toPort, l) =>
      DialFromKeeps(c, name, 0, 0, l);
      DialToPortKeeps(c, name, toPort, [], l);
    case DialPort(toPort, fromPorts, l) => DialToPortKeeps(c, name, toPort, fromPorts, l);
    case CloseAll =>
  }

  lemma {:induction false} RunOk(name: string, calls: seq<Call>)
    requires Fair(calls)
    ensures CacheOk(Run(name, calls), name)
  {
    if calls != [] {
      var front := calls[..|calls| - 1];
      assert Fair(front);
      RunOk(name, front);
      StepKeeps(Run(name, front), name, calls[|calls| - 1]);
    }
  }

  // ----- Identifiers -----

  predicate AllDigits(s: string) {
    forall i | 0 <= i < |s| :: s[i] in DIGITS
  }

  lemma {:induction false} DecimalIsDigits(n: nat)
    ensures AllDigits(Decimal(n)) && Decimal(n) != []
  {
    if n >= 10 {
      DecimalIsDigits(n / 10);
    }
  }

  lemma {:induction false} DecimalInjective(m: nat, n: nat)
    requires Decimal(m) == Decimal(n)
    ensures m == n
    decreases m + n
  {
    assert Decimal(m)[|Decimal(m)| - 1] == DIGITS[m % 10];
    assert Decimal(n)[|Decimal(n)| - 1] == DIGITS[n % 10];
    DigitInjective(m % 10, n % 10);
    if m >= 10 {
      DecimalIsDigits(m / 10);
    }
    if n >= 10 {
      DecimalIsDigits(n / 10);
    }
    if m >= 10 && n >= 10 {
      assert Decimal(m)[..|Decimal(m)| - 1] == Decimal(m / 10);
      assert Decimal(n)[..|Decimal(n)| - 1] == Decimal(n / 10);
      DecimalInjective(m / 10, n / 10);
    }
  }

  lemma DigitInjective(a: nat, b: nat)
    requires a < 10 && b < 10 && DIGITS[a] == DIGITS[b]
    ensures a == b
  {
  }

  /** Text split at its first '-' is determined by the whole. */
  lemma SplitUnique(a: string, b: string, c: string, d: string)
    requires AllDigits(a) && AllDigits(c) && a + "-" + b == c + "-" + d
    ensures a == c && b == d
  {
    var s := a + "-" + b;
    assert forall i | 0 <= i < |a| :: s[i] == a[i];
    assert forall i | 0 <= i < |c| :: s[i] == c[i];
    assert s[|a|] == '-' && s[|c|] == '-';
    assert |a| == |c|;
    assert a == s[..|a|] && c == s[..|c|];
    assert b == s[|a| + 1..] && d == s[|c| + 1..];
  }

  lemma SubIdInjective(name: string, p: Ports, q: Ports)
    requires ValidPort(p.from) && ValidPort(p.to) && ValidPort(q.from) && ValidPort(q.to)
    requires SubId(name, p) == SubId(name, q)
    ensures p == q
  {
    var base := name + "-stream";
    assert p != Ports(0, 0) ==> |SubId(name, p)| > |base|;
    assert q != Ports(0, 0) ==> |SubId(name, q)| > |base|;
    if p != Ports(0, 0) && q != Ports(0, 0) {
      var a, b := Decimal(p.from), Decimal(p.to);
      var c, d := Decimal(q.from), Decimal(q.to);
      var prefix := name + "-stream-";
      assert SubId(name, p)[|prefix|..] == a + "-" + b;
      assert SubId(name, q)[|prefix|..] == c + "-" + d;
      DecimalIsDigits(p.from);
      DecimalIsDigits(q.from);
      SplitUnique(a, b, c, d);
      DecimalInjective(p.from, q.from);
      DecimalInjective(p.to, q.to);
    }
  }

  // ----- The cache -----

  /** In every run of listens, dials and closes, whatever fails: a live subsession has a live primary session, each
      pair of ports gets at most one subsession between two Closes, and no two of them share an identifier. */
  lemma {:induction false} OneSubsessionPerPorts(name: string, calls: seq<Call>, i: nat, j: nat)
    requires Fair(calls) && i < j < |Run(name, calls).created|
    ensures var c := Run(name, calls);
            c.created[i].ports != c.created[j].ports && c.created[i].id != c.created[j].id && c.primary
  {
    RunOk(name, calls);
    var c := Run(name, calls);
    assert CreationOk(c, name, c.created[i]) && CreationOk(c, name, c.created[j]);
    if c.created[i].id == c.created[j].id {
      SubIdInjective(name, c.created[i].ports, c.created[j].ports);
    }
  }

  /** A live subsession has a live primary session and was created, under the identifier of its ports, since the
      last Close. */
  lemma {:induction false} LiveIsCreated(name: string, calls: seq<Call>, ports: Ports)
    requires Fair(calls) && Cached(Run(name, calls), ports).Some?
    ensures var c := Run(name, calls);
            c.primary && Creation(ports, Cached(c, ports).value) in c.created
  {
    RunOk(name, calls);
  }

  /** The persistent local port is 0 or ephemeral, and once chosen stays until Close. */
  lemma {:induction false} FromPortIsStable(name: string, calls: seq<Call>, call: Call)
    requires Fair(calls + [call])
    ensures var c, c' := Run(name, calls), Run(name, calls + [call]);
            && (c.fromPort == 0 || MIN_EPHEMERAL <= c.fromPort <= MAX_PORT)
            && (c.fromPort != 0 && !call.CloseAll? ==> c'.fromPort == c.fromPort)
            && (call.CloseAll? ==> c'.fromPort == 0)
  {
    assert (calls + [call])[..|calls|] == calls;
    assert forall x | x in calls :: x in calls + [call];
    RunOk(name, calls);
  }

  /** A SAM connection is kept as it is, and a new one is open. */
  predicate SamKept(c: Cache, c': Cache) {
    && (c.sam ==> c'.sam && c'.samOpen == c.samOpen)
    && (!c.sam && !c.samOpen ==> c'.samOpen == c'.sam)
  }

  lemma StreamKeepsSam(c: Cache, name: string, l: Luck)
    ensures SamKept(c, Stream(c, name, l))
  {
  }

  lemma DialKeepsSam(c: Cache, name: string, toPort: Option<int>, fromPorts: seq<int>, l: Luck)
    ensures SamKept(c, DialToPort(c, name, toPort, fromPorts, l))
  {
  }

  lemma StepKeepsSam(c: Cache, name: string, call: Call)
    ensures !call.CloseAll? ==> SamKept(c, Step(c, name, call))
    ensures call.CloseAll? ==> Step(c, name, call).sam == c.sam && !Step(c, name, call).samOpen
  {
    match call
    case Listen(l) => StreamKeepsSam(c, name, l);
    case DialAddr(toPort, l) =>
      StreamKeepsSam(c, name, l);
      DialKeepsSam(c, name, toPort, [], l);
    case DialPort(toPort, fromPorts, l) => DialKeepsSam(c, name, toPort, fromPorts, l);
    case CloseAll =>
  }

  lemma {:induction false} SamStays(name: string, calls: seq<Call>, n: nat)
    requires n <= |calls| && Run(name, calls[..n]).sam
    ensures Run(name, calls).sam
  {
    if n == |calls| {
      assert calls[..n] == calls;
    } else {
      var front := calls[..|calls| - 1];
      assert front[..n] == calls[..n];
      SamStays(name, front, n);
      StepKeepsSam(Run(name, front), name, calls[|calls| - 1]);
    }
  }

  /** The calls up to the n-th have left a SAM connection, and the n-th closes it. */
  predicate ClosesSam(name: string, calls: seq<Call>, n: nat) {
    n < |calls| && calls[n].CloseAll? && Run(name, calls[..n]).sam
  }

  /** After the first Close that finds a SAM connection every later call works over that closed connection, and none
      is opened again: it is open if and only if there is one and no Close has found one. */
  lemma {:induction false} SamOpenExactlyWhen(name: string, calls: seq<Call>)
    ensures var c := Run(name, calls);
            c.samOpen <==> c.sam && forall n: nat :: !ClosesSam(name, calls, n)
  {
    if calls != [] {
      var front, call := calls[..|calls| - 1], calls[|calls| - 1];
      var c := Run(name, front);
      SamOpenExactlyWhen(name, front);
      StepKeepsSam(c, name, call);
      forall n: nat ensures ClosesSam(name, calls, n) <==>
                            ClosesSam(name, front, n) || (n == |front| && call.CloseAll? && c.sam)
      {
        if n < |front| {
          assert front[..n] == calls[..n];
        } else if n == |front| {
          assert calls[..n] == front;
        }
      }
      assert call.CloseAll? && c.sam ==> ClosesSam(name, calls, |front|);
      if n: nat :| ClosesSam(name, front, n) {
        assert ClosesSam(name, calls, n);
        SamStays(name, front, n);
      }
    }
  }

  /** A subsession once in the cache is what every later call for its ports gets, until Close. */
  lemma {:induction false} CachedStays(c: Cache, name: string, call: Call, ports: Ports)
    requires Cached(c, ports).Some? && !call.CloseAll?
    ensures Cached(Step(c, name, call), ports) == Cached(c, ports)
  {
    match call
    case Listen(l) => SetupCachedStays(WithSam(c, l), name, Ports(0, 0), l, ports);
    case DialAddr(toPort, l) =>
      SetupCachedStays(WithSam(c, l), name, Ports(0, 0), l, ports);
      DialCachedStays(c, name, toPort, [], l, ports);
    case DialPort(toPort, fromPorts, l) => DialCachedStays(c, name, toPort, fromPorts, l, ports);
  }

  lemma {:induction false} SetupCachedStays(c: Cache, name: string, p: Ports, l: Luck, ports: Ports)
    requires Cached(c, ports).Some? && ValidPort(p.from) && ValidPort(p.to)
    ensures Cached(Setup(c, name, p, l), ports) == Cached(c, ports)
  {
    if Cached(c, p).None? {
      InsertCaches(WithPrimary(c, l), p, SubId(name, p), ports);
    }
  }

  lemma {:induction false} DialCachedStays(
      c: Cache, name: string, toPort: Option<int>, fromPorts: seq<int>, l: Luck, ports: Ports)
    requires Cached(c, ports).Some?
    ensures Cached(DialToPort(c, name, toPort, fromPorts, l), ports) == Cached(c, ports)
  {
    if toPort.Some? && ValidPort(toPort.value) {
      var c' := if fromPorts == [] && toPort.value != 0 then WithFromPort(c, l) else c;
      var from := LocalPort(c', toPort.value, fromPorts);
      if from.Some? && ValidPort(from.value) {
        SetupCachedStays(WithSam(c', l), name, Ports(from.value, toPort.value), l, ports);
      }
    }
  }

  // ----- Which subsession a call gets -----

  /** Every call into SAM succeeds. */
  predicate Works(l: Luck) {
    l.sam && l.primary && l.sub
  }

  /** c' is c with the subsession for the ports, under the identifier of the ports, and no other change to the
      cached ones. */
  ghost predicate Gains(c: Cache, c': Cache, name: string, ports: Ports)
    requires ValidPort(ports.from) && ValidPort(ports.to)
  {
    && Cached(c', ports) == Some(SubId(name, ports))
    && forall p | p != ports :: Cached(c', p) == Cached(c, p)
  }

  /** In a sound cache a subsession has the identifier of its ports. */
  lemma CachedIsNamed(c: Cache, name: string, ports: Ports)
    requires CacheOk(c, name) && Cached(c, ports).Some?
    ensures ValidPort(ports.from) && ValidPort(ports.to) && Cached(c, ports) == Some(SubId(name, ports))
  {
    assert Creation(ports, Cached(c, ports).value) in c.created;
    var i :| 0 <= i < |c.created| && c.created[i] == Creation(ports, Cached(c, ports).value);
    assert CreationOk(c, name, c.created[i]);
  }

  lemma SetupGains(c: Cache, name: string, ports: Ports, l: Luck)
    requires CacheOk(c, name) && ValidPort(ports.from) && ValidPort(ports.to) && l.primary && l.sub
    ensures Gains(c, Setup(c, name, ports, l), name, ports)
  {
    if Cached(c, ports).Some? {
      CachedIsNamed(c, name, ports);
    } else {
      forall p {
        InsertCaches(WithPrimary(c, l), ports, SubId(name, ports), p);
      }
    }
  }

  /** The local port of a dial: the one given, none for a destination without a port, and otherwise the persistent
      one, drawn from 1024-65535 when there is none yet. */
  function DialsFrom(fromPort: int, toPort: int, fromPorts: seq<int>, random: Option<nat>): Option<int> {
    if |fromPorts| == 1 then Some(fromPorts[0])
    else if toPort == 0 then Some(0)
    else if fromPort != 0 then Some(fromPort)
    else if random.Some? then Some(1024 + random.value)
    else None
  }

  lemma DialFromGains(c: Cache, name: string, from: int, toPort: int, l: Luck)
    requires CacheOk(c, name) && Works(l) && ValidPort(from) && ValidPort(toPort)
    ensures var c', ports := DialFrom(c, name, from, toPort, l), Ports(from, toPort);
            Gains(c, c', name, ports) && c'.sam && c'.fromPort == c.fromPort
  {
    SameCreations(c, WithSam(c, l), name);
    SetupGains(WithSam(c, l), name, Ports(from, toPort), l);
  }

  /** The cache once the local port is selected. */
  function Selecting(c: Cache, toPort: int, fromPorts: seq<int>, l: Luck): Cache {
    if fromPorts == [] && toPort != 0 then WithFromPort(c, l) else c
  }

  lemma SelectsPort(c: Cache, name: string, toPort: int, fromPorts: seq<int>, l: Luck)
    requires CacheOk(c, name) && l.Valid() && |fromPorts| <= 1 && (fromPorts != [] ==> ValidPort(fromPorts[0]))
    ensures var c0, from := Selecting(c, toPort, fromPorts, l), DialsFrom(c.fromPort, toPort, fromPorts, l.random);
            && CacheOk(c0, name) && LocalPort(c0, toPort, fromPorts) == from
            && (forall p :: Cached(c0, p) == Cached(c, p))
            && (from.Some? ==>
                  && ValidPort(from.value)
                  && c0.fromPort == (if fromPorts == [] && toPort != 0 then from.value else c.fromPort))
            && (from.Some? && fromPorts == [] && toPort != 0 ==> 1024 <= from.value <= 65535)
  {
    SameCreations(c, Selecting(c, toPort, fromPorts, l), name);
  }

  /** With valid ports and SAM and the random source working, DialContextToPort gets the subsession of exactly its
      ports, cached or new; no other pair gains or loses one. */
  lemma DialServes(c: Cache, name: string, toPort: int, fromPorts: seq<int>, l: Luck)
    requires CacheOk(c, name) && Works(l) && l.Valid()
    requires 0 <= toPort <= 65535 && |fromPorts| <= 1 && (fromPorts != [] ==> 0 <= fromPorts[0] <= 65535)
    requires DialsFrom(c.fromPort, toPort, fromPorts, l.random).Some?
    ensures var c' := DialToPort(c, name, Some(toPort), fromPorts, l);
            var from := DialsFrom(c.fromPort, toPort, fromPorts, l.random).value;
            && ValidPort(from) && Gains(c, c', name, Ports(from, toPort))
            && Served(c', Some(toPort), fromPorts) == Some(SubId(name, Ports(from, toPort)))
            && c'.fromPort == (if fromPorts == [] && toPort != 0 then from else c.fromPort)
            && (fromPorts == [] && toPort != 0 ==> 1024 <= from <= 65535)
  {
    var c0 := Selecting(c, toPort, fromPorts, l);
    var from := DialsFrom(c.fromPort, toPort, fromPorts, l.random).value;
    SelectsPort(c, name, toPort, fromPorts, l);
    DialFromGains(c0, name, from, toPort, l);
    assert DialToPort(c, name, Some(toPort), fromPorts, l) == DialFrom(c0, name, from, toPort, l);
  }

  /** What is refused leaves everything as it is: several local ports, a port out of range, an address that does not
      parse; and so does a persistent port that cannot be drawn. */
  lemma DialRefuses(c: Cache, name: string, toPort: Option<int>, fromPorts: seq<int>, l: Luck)
    requires || |fromPorts| > 1 || toPort.None? || !(0 <= toPort.value <= 65535)
             || (|fromPorts| == 1 && !(0 <= fromPorts[0] <= 65535))
             || (fromPorts == [] && DialsFrom(c.fromPort, toPort.value, [], l.random) == None)
    ensures DialToPort(c, name, toPort, fromPorts, l) == c && Served(c, toPort, fromPorts) == None
  {
  }

  /** ListenStream, and DialContext to a destination without a port, get the plain subsession. */
  lemma StreamServes(c: Cache, name: string, l: Luck)
    requires CacheOk(c, name) && Works(l)
    ensures var c' := Stream(c, name, l);
            Gains(c, c', name, Ports(0, 0)) && Served(c', Some(0), []) == Some(name + "-stream")
  {
    DialFromGains(c, name, 0, 0, l);
  }

  predicate Fails(c: Cache, l: Luck) {
    (!c.sam && !l.sam) || (!c.primary && !l.primary) || !l.sub
  }

  lemma DialFromFails(c: Cache, name: string, from: int, toPort: int, l: Luck, p: Ports)
    requires Fails(c, l) && ValidPort(toPort)
    ensures Cached(DialFrom(c, name, from, toPort, l), p) == Cached(c, p)
  {
  }

  /** Without SAM, or without a primary session or a subsession from it, no call gains a subsession; without SAM none
      returns one. */
  lemma FailureGainsNothing(c: Cache, name: string, toPort: Option<int>, fromPorts: seq<int>, l: Luck, p: Ports)
    requires Fails(c, l)
    ensures var c' := DialToPort(c, name, toPort, fromPorts, l);
            && Cached(c', p) == Cached(c, p)
            && (!c.sam && !l.sam ==> Served(c', toPort, fromPorts) == None)
    ensures Cached(Stream(c, name, l), p) == Cached(c, p)
    ensures !c.sam && !l.sam ==> Served(Stream(c, name, l), Some(0), []) == None
  {
    DialFromFails(c, name, 0, 0, l, p);
    if toPort.Some? && ValidPort(toPort.value) {
      var c' := if fromPorts == [] && toPort.value != 0 then WithFromPort(c, l) else c;
      var from := LocalPort(c', toPort.value, fromPorts);
      if from.Some? {
        DialFromFails(c', name, from.value, toPort.value, l, p);
      }
    }
  }

  /** Close leaves nothing cached. */
  lemma ClosedIsEmpty(c: Cache, p: Ports)
    ensures Cached(Closed(c), p) == None && Closed(c).fromPort == 0 && !Closed(c).primary
  {
  }
}
