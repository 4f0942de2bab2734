/** Closing a hybrid2 session while its receive loops run: any number of Close callers, the two producers, the
    bounded channel and its readers (hybrid2/session.go, hybrid2/receiver.go). */
module Lifecycle {
  import opened Base
  import opened AckCodec

  type Closer = nat
  type Reader = nat

  /** The steps of Close after the flag; each names what it does next. */
  datatype ClosePc =
    | StopReceiving
    | StopTable
    | StopAckCleanup
    | SignalDone
    | Finished(shutDown: bool)

  datatype Item = Item(data: Bytes, source: Addr, wasDatagram2: bool)

  /** A receive loop; `lost` is the item it held when it saw the stop signal. */
  datatype ProducerPc =
    | AtTop
    | Reading
    | Holding(item: Item)
    | Exited(lost: seq<Item>)

  /** The outcome of a blocking read; `replied` is that of the ACK response, should one be due. */
  datatype Read =
    | Failed
    | Got(payload: Bytes, source: Addr, replied: bool)

  /** A call of ReceiveDatagram. */
  datatype ReaderPc =
    | Waiting
    | Refused
    | ReturnedItem(item: Item)
    | ReturnedError

  /** `returned` lists what its reads returned so far, `late` counts the items enqueued after the stop signal. */
  datatype Producer = Producer(pc: ProducerPc, returned: seq<Read>, late: nat)

  /** `two` tells the producer of the datagram2s from that of the datagram3s. */
  datatype Event =
    | CallClose(c: Closer)
    | AdvanceClose(c: Closer)
    | Loop(two: bool)
    | Return(two: bool, r: Read)
    | Offer(two: bool)
    | SeeStop(two: bool)
    | CallReceive(reader: Reader)
    | TakeItem(reader: Reader)
    | TakeError(reader: Reader)

  /** The session's flag, its Close callers, and how often each channel has been closed. */
  datatype Shutdown = Shutdown(
    closed: bool,
    closers: map<Closer, ClosePc>,
    recvStop: nat,
    tableStop: nat,
    ackStop: nat,
    cleanupDone: nat)

  /** The buffer of the receive channel, whether the error channel, which has room for one, is full, what was ever
      put into the receive channel, and what the application has received. */
  datatype State = State(
    down: Shutdown,
    buffer: seq<Item>,
    errorPending: bool,
    readers: map<Reader, ReaderPc>,
    entered: seq<Item>,
    received: seq<Item>,
    p2: Producer,
    p3: Producer)

  const Open: State :=
    State(Shutdown(false, map[], 0, 0, 0, 0), [], false, map[], [], [],
          Producer(AtTop, [], 0), Producer(AtTop, [], 0))

  predicate Stopping(s: State) {
    s.down.recvStop > 0
  }

  function ProducerOf(s: State, two: bool): Producer {
    if two then s.p2 else s.p3
  }

  function WithProducer(s: State, two: bool, p: Producer): State {
    if two then s.(p2 := p) else s.(p3 := p)
  }

  /** The section of Close under closeMu. */
  function Enter(d: Shutdown, c: Closer): Shutdown {
    if d.closed then d.(closers := d.closers[c := Finished(false)])
    else d.(closed := true, closers := d.closers[c := StopReceiving])
  }

  function Shut(d: Shutdown, c: Closer): Shutdown
    requires c in d.closers
  {
    match d.closers[c]
    case StopReceiving => d.(recvStop := d.recvStop + 1, closers := d.closers[c := StopTable])
    case StopTable => d.(tableStop := d.tableStop + 1, closers := d.closers[c := StopAckCleanup])
    case StopAckCleanup => d.(ackStop := d.ackStop + 1, closers := d.closers[c := SignalDone])
    case SignalDone => d.(cleanupDone := d.cleanupDone + 1, closers := d.closers[c := Finished(true)])
    case Finished(_) => d
  }

  function CloseStep(d: Shutdown, e: Event): Shutdown {
    match e
    case CallClose(c) => if c in d.closers then d else Enter(d, c)
    case AdvanceClose(c) => if c in d.closers then Shut(d, c) else d
    case _ => d
  }

  /** The select at the top of a receive loop. */
  function Loops(p: Producer, stopping: bool): Producer {
    if p.pc.AtTop? then p.(pc := if stopping then Exited([]) else Reading) else p
  }

  /** What becomes of a read: a datagram3 as it is, a datagram2 decoded, nothing for an ACK response or an error. */
  function Accepted(r: Read, two: bool): seq<Item> {
    match r
    case Failed => []
    case Got(payload, source, _) =>
      if !two then [Item(payload, source, false)]
      else match Forwarded(payload)
           case Some(data) => [Item(data, source, true)]
           case None => []
  }

  /** The return of a blocking read. */
  function Reads(p: Producer, r: Read, two: bool, stopping: bool): Producer {
    if !p.pc.Reading? then p
    else
      var accepted := Accepted(r, two);
      p.(returned := p.returned + [r],
      pc := if accepted != [] then Holding(accepted[0])
            else if r.Failed? && stopping then Exited([]) else AtTop)
  }

  /** Reported is a failed read while the session is not stopping, and an ACK response that failed, as all do once
      the session is closed. A report that finds the error channel full is dropped. */
  predicate Reports(s: State, p: Producer, r: Read, two: bool) {
    p.pc.Reading? &&
    match r
    case Failed => !Stopping(s)
    case Got(payload, _, replied) => two && Decode(payload).Request? && (s.down.closed || !replied)
  }

  predicate CanOffer(s: State, p: Producer) {
    p.pc.Holding? && |s.buffer| < RECV_BUFFER
  }

  function Offered(p: Producer, stopping: bool): Producer {
    p.(pc := AtTop, late := p.late + if stopping then 1 else 0)
  }

  function SeesStop(p: Producer, stopping: bool): Producer {
    if p.pc.Holding? && stopping then p.(pc := Exited([p.pc.item])) else p
  }

  predicate IsWaiting(s: State, r: Reader) {
    r in s.readers && s.readers[r].Waiting?
  }

  function Step(s: State, e: Event): State {
    match e
    case CallClose(_) => s.(down := CloseStep(s.down, e))
    case AdvanceClose(_) => s.(down := CloseStep(s.down, e))
    case Loop(two) => WithProducer(s, two, Loops(ProducerOf(s, two), Stopping(s)))
    case Return(two, r) =>
      var p := ProducerOf(s, two);
      WithProducer(s, two, Reads(p, r, two, Stopping(s)))
      .(errorPending := s.errorPending || Reports(s, p, r, two))
    case Offer(two) =>
      var p := ProducerOf(s, two);
      if !CanOffer(s, p) then s
      else
        WithProducer(s, two, Offered(p, Stopping(s)))
        .(buffer := s.buffer + [p.pc.item], entered := s.entered + [p.pc.item])
    case SeeStop(two) => WithProducer(s, two, SeesStop(ProducerOf(s, two), Stopping(s)))
    case CallReceive(r) =>
      if r in s.readers then s else s.(readers := s.readers[r := if s.down.closed then Refused else Waiting])
    case TakeItem(r) =>
      if !IsWaiting(s, r) || s.buffer == [] then s
      else s.(received := s.received + [s.buffer[0]], buffer := s.buffer[1..],
           readers := s.readers[r := ReturnedItem(s.buffer[0])])
    case TakeError(r) =>
      if !IsWaiting(s, r) || !s.errorPending then s
      else s.(errorPending := false, readers := s.readers[r := ReturnedError])
  }

  function After(s: State, es: seq<Event>): State {
    if es == [] then s else Step(After(s, es[..|es| - 1]), es[|es| - 1])
  }

  function Run(es: seq<Event>): State {
    After(Open, es)
  }

  /** ensureSessionOpen. */
  predicate EnsureOpen(s: State) {
    !s.down.closed
  }

  // ----- Shutting down once -----

  /** The closer that found the session open, if any, has got as far as the closed channels say. */
  predicate Performed(d: Shutdown, pc: ClosePc) {
    && d.recvStop == (if pc.StopReceiving? then 0 else 1)
    && d.tableStop == (if pc.StopReceiving? || pc.StopTable? then 0 else 1)
    && d.ackStop == (if pc.SignalDone? || pc.Finished? then 1 else 0)
    && d.cleanupDone == (if pc.Finished? then 1 else 0)
  }

  predicate ClosesOnce(d: Shutdown) {
    && (forall c | c in d.closers && d.closers[c] != Finished(false) :: d.closed && Performed(d, d.closers[c]))
    && (forall c, k | c in d.closers && k in d.closers && d.closers[c] != Finished(false) &&
                      d.closers[k] != Finished(false) :: c == k)
    && (d.closed <==> exists c | c in d.closers :: d.closers[c] != Finished(false))
    && (!d.closed ==> d.closers == map[] && d.recvStop == d.tableStop == d.ackStop == d.cleanupDone == 0)
  }

  lemma CloseKeeps(d: Shutdown, e: Event)
    requires ClosesOnce(d)
    ensures ClosesOnce(CloseStep(d, e))
  {
    var d' := CloseStep(d, e);
    if d.closed {
      var c :| c in d.closers && d.closers[c] != Finished(false);
      assert d'.closers[c] != Finished(false);
    } else if e.CallClose? {
      assert d'.closers[e.c] == StopReceiving;
    }
  }

  lemma DownAfter(s: State, e: Event)
    ensures Step(s, e).down == CloseStep(s.down, e)
  {
  }

  lemma {:induction false} RunClosesOnce(es: seq<Event>)
    ensures ClosesOnce(Run(es).down)
  {
    if es != [] {
      RunClosesOnce(es[..|es| - 1]);
      DownAfter(Run(es[..|es| - 1]), es[|es| - 1]);
      CloseKeeps(Run(es[..|es| - 1]).down, es[|es| - 1]);
    }
  }

  /** Of any number of Close callers exactly one shuts the session down once one has returned, every channel is
      closed at most once, and cleanupDone only after the other three. */
  lemma ExactlyOneShutdown(es: seq<Event>)
    ensures var d := Run(es).down;
            && d.recvStop <= 1 && d.tableStop <= 1 && d.ackStop <= 1 && d.cleanupDone <= 1
            && (d.cleanupDone == 1 ==> d.recvStop == 1 && d.tableStop == 1 && d.ackStop == 1)
            && (forall c, k | c in d.closers && k in d.closers && d.closers[c] != Finished(false) &&
                              d.closers[k] != Finished(false) :: c == k)
            && (d.closers != map[] ==> exists c | c in d.closers :: d.closers[c] != Finished(false))
  {
    RunClosesOnce(es);
    var d := Run(es).down;
    if d.closed {
      var c :| c in d.closers && d.closers[c] != Finished(false);
      assert Performed(d, d.closers[c]);
    }
  }

  /** A Close that finds the session open has closed all four channels after its own five steps. */
  lemma CloseCompletes(d: Shutdown, c: Closer)
    requires ClosesOnce(d) && !d.closed
    ensures var d1 := CloseStep(d, CallClose(c));
            var d3 := CloseStep(CloseStep(d1, AdvanceClose(c)), AdvanceClose(c));
            var d5 := CloseStep(CloseStep(d3, AdvanceClose(c)), AdvanceClose(c));
            d5 == Shutdown(true, map[c := Finished(true)], 1, 1, 1, 1)
  {
  }

  /** A call of Close leaves the session closed. */
  lemma {:induction false} CallersFindItClosed(es: seq<Event>, c: Closer)
    requires c in Run(es).down.closers
    ensures Run(es).down.closed
  {
    RunClosesOnce(es);
  }

  /** Once the session is closed no later check passes. */
  lemma {:induction false} StaysClosed(s: State, es: seq<Event>)
    requires s.down.closed
    ensures !EnsureOpen(After(s, es))
  {
    if es != [] {
      StaysClosed(s, es[..|es| - 1]);
      DownAfter(After(s, es[..|es| - 1]), es[|es| - 1]);
    }
  }

  // ----- The merged stream -----

  function Stream(items: seq<Item>, two: bool): seq<Item> {
    if items == [] then []
    else
      var front, last := Stream(items[..|items| - 1], two), items[|items| - 1];
      if last.wasDatagram2 == two then front + [last] else front
  }

  /** What a producer has to forward, in the order of its reads. */
  function Taken(returned: seq<Read>, two: bool): seq<Item> {
    if returned == [] then [] else Taken(returned[..|returned| - 1], two) + Accepted(returned[|returned| - 1], two)
  }

  /** What a producer took and has not enqueued. */
  function Kept(pc: ProducerPc): seq<Item> {
    match pc
    case Holding(item) => [item]
    case Exited(lost) => lost
    case _ => []
  }

  /** The items of a stream that went into the channel, then what the producer kept, are what it took. */
  predicate Follows(items: seq<Item>, p: Producer, two: bool) {
    && Stream(items, two) + Kept(p.pc) == Taken(p.returned, two)
    && |Kept(p.pc)| <= 1
    && (p.pc.Holding? ==> p.pc.item.wasDatagram2 == two)
  }

  predicate Merges(s: State, two: bool) {
    Follows(s.entered, ProducerOf(s, two), two)
  }

  lemma StreamSnoc(items: seq<Item>, item: Item, two: bool)
    ensures Stream(items + [item], two) ==
            if item.wasDatagram2 == two then Stream(items, two) + [item] else Stream(items, two)
  {
    assert (items + [item])[..|items|] == items;
  }

  lemma ReadFollows(items: seq<Item>, p: Producer, r: Read, two: bool, stopping: bool)
    requires Follows(items, p, two)
    ensures Follows(items, Reads(p, r, two, stopping), two)
  {
    if p.pc.Reading? {
      assert (p.returned + [r])[..|p.returned|] == p.returned;
      assert Stream(items, two) + [] == Stream(items, two);
    }
  }

  lemma OfferFollows(items: seq<Item>, p: Producer, q: Producer, two: bool, stopping: bool)
    requires Follows(items, p, two) && Follows(items, q, !two) && p.pc.Holding?
    ensures Follows(items + [p.pc.item], Offered(p, stopping), two) && Follows(items + [p.pc.item], q, !two)
  {
    StreamSnoc(items, p.pc.item, two);
    StreamSnoc(items, p.pc.item, !two);
    assert (Stream(items, two) + [p.pc.item]) + [] == Stream(items, two) + [p.pc.item];
  }

  /** Steps of a producer that do not touch the channel. */
  lemma LoopFollows(items: seq<Item>, p: Producer, two: bool, stopping: bool)
    requires Follows(items, p, two)
    ensures Follows(items, Loops(p, stopping), two)
  {
  }

  lemma SeeStopFollows(items: seq<Item>, p: Producer, two: bool, stopping: bool)
    requires Follows(items, p, two)
    ensures Follows(items, SeesStop(p, stopping), two)
  {
  }

  /** A step of the producer itself. */
  lemma OwnStepMerges(s: State, e: Event, two: bool)
    requires Merges(s, two) && Merges(s, !two)
    requires (e.Loop? || e.Return? || e.Offer? || e.SeeStop?) && e.two == two
    ensures Merges(Step(s, e), two)
  {
    var p := ProducerOf(s, two);
    match e
    case Offer(_) => if CanOffer(s, p) { OfferFollows(s.entered, p, ProducerOf(s, !two), two, Stopping(s)); }
    case Return(_, r) => ReadFollows(s.entered, p, r, two, Stopping(s));
    case Loop(_) => LoopFollows(s.entered, p, two, Stopping(s));
    case SeeStop(_) => SeeStopFollows(s.entered, p, two, Stopping(s));
  }

  /** Any other step leaves the producer where it is, and puts into the channel at most an item of the other. */
  lemma OtherStepMerges(s: State, e: Event, two: bool)
    requires Merges(s, two) && Merges(s, !two)
    requires (e.Loop? || e.Return? || e.Offer? || e.SeeStop?) ==> e.two == !two
    ensures Merges(Step(s, e), two)
  {
    if e.Offer? && CanOffer(s, ProducerOf(s, !two)) {
      OfferFollows(s.entered, ProducerOf(s, !two), ProducerOf(s, two), !two, Stopping(s));
    }
  }

  lemma {:induction false} RunMerges(es: seq<Event>, two: bool)
    ensures Merges(Run(es), two)
  {
    if es != [] {
      var s, e := Run(es[..|es| - 1]), es[|es| - 1];
      RunMerges(es[..|es| - 1], two);
      RunMerges(es[..|es| - 1], !two);
      if (e.Loop? || e.Return? || e.Offer? || e.SeeStop?) && e.two == two {
        OwnStepMerges(s, e, two);
      } else {
        OtherStepMerges(s, e, two);
      }
    }
  }

  /** The receive channel is a bounded queue between its senders and the application. */
  predicate Channel(s: State) {
    s.entered == s.received + s.buffer && |s.buffer| <= RECV_BUFFER
  }

  lemma FirstMoves(a: seq<Item>, b: seq<Item>)
    requires b != []
    ensures a + b == (a + [b[0]]) + b[1..]
  {
  }

  lemma StepQueues(s: State, e: Event)
    requires Channel(s)
    ensures Channel(Step(s, e))
  {
    if e.TakeItem? && s.buffer != [] {
      FirstMoves(s.received, s.buffer);
    }
  }

  lemma {:induction false} RunQueues(es: seq<Event>)
    ensures Channel(Run(es))
  {
    if es != [] {
      RunQueues(es[..|es| - 1]);
      StepQueues(Run(es[..|es| - 1]), es[|es| - 1]);
    }
  }

  /** There is room for a hundred. */
  lemma OfferedWhileThereIsRoom(s: State, two: bool)
    requires ProducerOf(s, two).pc.Holding?
    ensures var s', item := Step(s, Offer(two)), ProducerOf(s, two).pc.item;
            if |s.buffer| < 100 then s'.buffer == s.buffer + [item] && ProducerOf(s', two).pc.AtTop? else s' == s
  {
  }

  /** The application receives each stream in order, without gaps or repetition, and the buffer never exceeds its
      capacity; the two streams together are all it receives. */
  lemma OrderedMerge(es: seq<Event>)
    ensures var s := Run(es);
            && Stream(s.received, true) <= Taken(s.p2.returned, true)
            && Stream(s.received, false) <= Taken(s.p3.returned, false)
            && |s.buffer| <= 100
  {
    RunMerges(es, true);
    RunMerges(es, false);
    RunQueues(es);
    var s := Run(es);
    StreamPrefix(s.received, s.buffer, true);
    StreamPrefix(s.received, s.buffer, false);
  }

  lemma {:induction false} StreamPrefix(a: seq<Item>, b: seq<Item>, two: bool)
    ensures Stream(a, two) <= Stream(a + b, two)
  {
    if b == [] {
      assert a + b == a;
    } else {
      StreamPrefix(a, b[..|b| - 1], two);
      assert (a + b)[..|a + b| - 1] == a + b[..|b| - 1];
    }
  }

  // ----- What was sent -----

  /** What a read brings, in terms of what was put on the wire. An overlong response has a tail. */
  datatype Arrival =
    | Nothing
    | Framed(seqNum: U64, data: Bytes, source: Addr)
    | Response(seqNum: U64, tail: Bytes, source: Addr)
    | Unmarked(data: Bytes, source: Addr)

  predicate Brings(r: Read, a: Arrival, two: bool) {
    match a
    case Nothing => r.Failed?
    case Framed(seqNum, data, source) =>
      two && r.Got? && r.payload == EncodeRequest(seqNum, data) && r.source == source
    case Response(seqNum, tail, source) =>
      two && r.Got? && r.payload == EncodeResponse(seqNum) + tail && r.source == source
    case Unmarked(data, source) =>
      r.Got? && r.payload == data && r.source == source && (two ==> !MarkerShaped(data))
  }

  predicate AllBring(returned: seq<Read>, arrivals: seq<Arrival>, two: bool) {
    |arrivals| == |returned| && forall i | 0 <= i < |returned| :: Brings(returned[i], arrivals[i], two)
  }

  /** What the application is to get of a stream: the payloads as they were sent, and no responses. */
  function Payloads(arrivals: seq<Arrival>, two: bool): seq<Item> {
    if arrivals == [] then []
    else
      var front, last := Payloads(arrivals[..|arrivals| - 1], two), arrivals[|arrivals| - 1];
      match last
      case Framed(_, data, source) => front + [Item(data, source, true)]
      case Unmarked(data, source) => front + [Item(data, source, two)]
      case _ => front
  }

  /** Every read brings something. */
  lemma SomethingBrought(r: Read, two: bool) returns (a: Arrival)
    ensures Brings(r, a, two)
  {
    if r.Failed? {
      a := Nothing;
    } else if !two {
      a := Unmarked(r.payload, r.source);
    } else {
      EncodersInvertDecode(r.payload);
      match Decode(r.payload)
      case Request(seqNum, data) => a := Framed(seqNum, data, r.source);
      case Response(seqNum) =>
        var tail := r.payload[9..];
        assert r.payload == EncodeResponse(seqNum) + tail;
        a := Arrival.Response(seqNum, tail, r.source);
      case Plain(_) => a := Unmarked(r.payload, r.source);
    }
  }

  lemma AcceptedAsSent(r: Read, a: Arrival, two: bool)
    requires Brings(r, a, two)
    ensures Accepted(r, two) ==
            match a
            case Framed(_, data, source) => [Item(data, source, true)]
            case Unmarked(data, source) => [Item(data, source, two)]
            case _ => []
  {
    match a
    case Framed(seqNum, data, _) => DecodeInvertsEncoders(seqNum, data);
    case Response(seqNum, tail, _) => TailIgnored(seqNum, tail);
    case Unmarked(data, _) => EncodersInvertDecode(data);
    case Nothing =>
  }

  /** What a loop does with a read: a payload is held for the channel, a response is dropped, an error ends the loop
      once the session is stopping. Reported is an error before that, and a response to a request that could not be
      sent, as none can once the session is closed. */
  lemma ReadIs(s: State, two: bool, r: Read, a: Arrival)
    requires ProducerOf(s, two).pc.Reading? && Brings(r, a, two)
    ensures var s' := Step(s, Return(two, r)); var pc := ProducerOf(s', two).pc;
            match a
            case Framed(_, data, source) =>
              pc == Holding(Item(data, source, true)) &&
              s'.errorPending == (s.errorPending || s.down.closed || !r.replied)
            case Unmarked(data, source) => pc == Holding(Item(data, source, two)) && s'.errorPending == s.errorPending
            case Response(_, _, _) => pc.AtTop? && s'.errorPending == s.errorPending
            case Nothing =>
              pc == (if Stopping(s) then Exited([]) else AtTop) && s'.errorPending == (s.errorPending || !Stopping(s))
  {
    AcceptedAsSent(r, a, two);
    match a
    case Framed(seqNum, data, _) => DecodeInvertsEncoders(seqNum, data);
    case Response(seqNum, tail, _) => TailIgnored(seqNum, tail);
    case Unmarked(data, _) => EncodersInvertDecode(data);
    case Nothing =>
  }

  lemma {:induction false} TakenAsSent(returned: seq<Read>, arrivals: seq<Arrival>, two: bool)
    requires AllBring(returned, arrivals, two)
    ensures Taken(returned, two) == Payloads(arrivals, two)
  {
    if returned != [] {
      var n := |returned| - 1;
      TakenAsSent(returned[..n], arrivals[..n], two);
      AcceptedAsSent(returned[n], arrivals[n], two);
      assert Taken(returned[..n], two) + [] == Taken(returned[..n], two);
    }
  }

  /** In every run, whatever the reads of a loop brought: what the application has received of that stream, then what
      is still buffered, then what the loop holds or lost on its exit, are the payloads as they were sent, in order and
      with their sources. So the application has received a prefix of them. */
  lemma ReceivedAsSent(es: seq<Event>, arrivals: seq<Arrival>, two: bool)
    requires AllBring(ProducerOf(Run(es), two).returned, arrivals, two)
    ensures var s := Run(es); var pc := ProducerOf(s, two).pc;
            && Stream(s.received, two) <= Payloads(arrivals, two)
            && Stream(s.received + s.buffer, two) +
               (if pc.Holding? then [pc.item] else if pc.Exited? then pc.lost else [])
               == Payloads(arrivals, two)
            && (pc.Exited? ==> |pc.lost| <= 1)
  {
    OrderedMerge(es);
    RunMerges(es, two);
    RunQueues(es);
    TakenAsSent(ProducerOf(Run(es), two).returned, arrivals, two);
  }

  /** The reads of a run that found the loop reading, in order. */
  function ReadsOf(es: seq<Event>, two: bool): seq<Read> {
    if es == [] then []
    else
      var front, e := es[..|es| - 1], es[|es| - 1];
      ReadsOf(front, two) +
      if e.Return? && e.two == two && ProducerOf(Run(front), two).pc.Reading? then [e.r] else []
  }

  lemma StepRecords(s: State, e: Event, two: bool)
    ensures ProducerOf(Step(s, e), two).returned ==
            ProducerOf(s, two).returned +
            if e.Return? && e.two == two && ProducerOf(s, two).pc.Reading? then [e.r] else []
  {
    assert ProducerOf(s, two).returned + [] == ProducerOf(s, two).returned;
  }

  /** No read is left out of the account. */
  lemma {:induction false} EveryReadCounts(es: seq<Event>, two: bool)
    ensures ProducerOf(Run(es), two).returned == ReadsOf(es, two)
  {
    if es != [] {
      EveryReadCounts(es[..|es| - 1], two);
      StepRecords(Run(es[..|es| - 1]), es[|es| - 1], two);
    }
  }

  // ----- Who gets what -----

  /** The readers that took an item, in order. */
  function Takers(es: seq<Event>): seq<Reader> {
    if es == [] then []
    else
      var front, e := es[..|es| - 1], es[|es| - 1];
      Takers(front) +
      if e.TakeItem? && IsWaiting(Run(front), e.reader) && Run(front).buffer != [] then [e.reader] else []
  }

  predicate Handed(s: State, takers: seq<Reader>) {
    && |takers| == |s.received|
    && (forall i | 0 <= i < |takers| :: takers[i] in s.readers && s.readers[takers[i]] == ReturnedItem(s.received[i]))
    && (forall r | r in s.readers && s.readers[r].ReturnedItem? :: r in takers)
  }

  lemma TakeHands(s: State, r: Reader, takers: seq<Reader>)
    requires Handed(s, takers) && IsWaiting(s, r) && s.buffer != []
    ensures Handed(Step(s, TakeItem(r)), takers + [r])
  {
    var s' := Step(s, TakeItem(r));
    forall i | 0 <= i < |takers| + 1
      ensures (takers + [r])[i] in s'.readers && s'.readers[(takers + [r])[i]] == ReturnedItem(s'.received[i])
    {
      if i < |takers| {
        assert s.readers[takers[i]].ReturnedItem?;
      }
    }
    forall k | k in s'.readers && s'.readers[k].ReturnedItem? ensures k in takers + [r] {
      if k == r {
        assert (takers + [r])[|takers|] == r;
      } else {
        assert k in takers;
      }
    }
  }

  lemma OtherHands(s: State, e: Event, takers: seq<Reader>)
    requires Handed(s, takers)
    requires e.TakeItem? ==> !IsWaiting(s, e.reader) || s.buffer == []
    ensures Handed(Step(s, e), takers)
  {
  }

  /** The i-th item received is what the i-th taker's call returned, and no call returned anything else. */
  lemma {:induction false} ReadersGetReceived(es: seq<Event>)
    ensures Handed(Run(es), Takers(es))
  {
    if es != [] {
      var s, e, takers := Run(es[..|es| - 1]), es[|es| - 1], Takers(es[..|es| - 1]);
      ReadersGetReceived(es[..|es| - 1]);
      if e.TakeItem? && IsWaiting(s, e.reader) && s.buffer != [] {
        TakeHands(s, e.reader, takers);
      } else {
        OtherHands(s, e, takers);
        assert takers + [] == takers;
      }
    }
  }

  // ----- Stopping -----

  predicate StopsSoon(p: Producer, stopping: bool) {
    && p.late <= 1
    && (!stopping ==> p.late == 0)
    && (p.pc.Reading? || p.pc.Holding? ==> p.late == 0)
  }

  /** The items that a loop of a run enqueued after the stop signal. */
  function LateItems(es: seq<Event>, two: bool): nat {
    if es == [] then 0
    else
      var front, e := es[..|es| - 1], es[|es| - 1];
      var s := Run(front);
      LateItems(front, two) +
      if e == Offer(two) && |Step(s, e).buffer| > |s.buffer| && Stopping(s) then 1 else 0
  }

  lemma StepCountsLate(s: State, e: Event, two: bool)
    ensures ProducerOf(Step(s, e), two).late ==
            ProducerOf(s, two).late +
            if e == Offer(two) && |Step(s, e).buffer| > |s.buffer| && Stopping(s) then 1 else 0
  {
  }

  lemma {:induction false} LateIsCounted(es: seq<Event>, two: bool)
    ensures ProducerOf(Run(es), two).late == LateItems(es, two)
  {
    if es != [] {
      LateIsCounted(es[..|es| - 1], two);
      StepCountsLate(Run(es[..|es| - 1]), es[|es| - 1], two);
    }
  }

  lemma StepStopsSoon(s: State, e: Event, two: bool)
    requires StopsSoon(ProducerOf(s, two), Stopping(s))
    ensures StopsSoon(ProducerOf(Step(s, e), two), Stopping(Step(s, e)))
  {
  }

  lemma {:induction false} RunStopsSoon(es: seq<Event>, two: bool)
    ensures StopsSoon(ProducerOf(Run(es), two), Stopping(Run(es)))
  {
    if es != [] {
      RunStopsSoon(es[..|es| - 1], two);
      StepStopsSoon(Run(es[..|es| - 1]), es[|es| - 1], two);
    }
  }

  lemma AtMostOneLateItem(es: seq<Event>, two: bool)
    ensures LateItems(es, two) <= 1
  {
    RunStopsSoon(es, two);
    LateIsCounted(es, two);
  }

  /** A producer's remaining steps once the stop channel is closed. */
  function StepsLeft(pc: ProducerPc): nat {
    match pc
    case Reading => 3
    case Holding(_) => 2
    case AtTop => 1
    case Exited(_) => 0
  }

  /** How many events of a run move the producer on. */
  function Moves(s: State, es: seq<Event>, two: bool): nat {
    if es == [] then 0
    else
      var s', e := After(s, es[..|es| - 1]), es[|es| - 1];
      Moves(s, es[..|es| - 1], two) +
      if ProducerOf(Step(s', e), two).pc != ProducerOf(s', two).pc then 1 else 0
  }

  /** What the producer does next when its read returns r and it turns to the stop signal. */
  function NextEvent(pc: ProducerPc, two: bool, r: Read): Event {
    match pc
    case Reading => Return(two, r)
    case Holding(_) => SeeStop(two)
    case _ => Loop(two)
  }

  lemma StepWindsDown(s: State, e: Event, two: bool)
    requires Stopping(s)
    ensures Stopping(Step(s, e))
    ensures var pc, pc' := ProducerOf(s, two).pc, ProducerOf(Step(s, e), two).pc;
            pc' == pc || StepsLeft(pc') < StepsLeft(pc)
  {
  }

  /** Whatever else happens after the stop signal, a producer makes at most three more steps and has exited after
      the third; until then its next step is always open to it, whatever its read returns and even when the channel
      is full. */
  lemma {:induction false} ProducersWindDown(s: State, es: seq<Event>, two: bool)
    requires Stopping(s)
    ensures var s' := After(s, es); var pc := ProducerOf(s', two).pc;
            && Stopping(s')
            && Moves(s, es, two) + StepsLeft(pc) <= StepsLeft(ProducerOf(s, two).pc) <= 3
            && (Moves(s, es, two) == 3 ==> pc.Exited?)
            && (!pc.Exited? ==> forall r :: ProducerOf(Step(s', NextEvent(pc, two, r)), two).pc != pc)
  {
    if es != [] {
      ProducersWindDown(s, es[..|es| - 1], two);
      StepWindsDown(After(s, es[..|es| - 1]), es[|es| - 1], two);
    }
  }

  // ----- Readers -----

  /** Some continuation lets the waiting reader return. */
  ghost predicate CanReturn(s: State, r: Reader) {
    exists es :: !IsWaiting(After(s, es), r)
  }

  predicate Delivers(p: Producer) {
    p.pc.Reading? || p.pc.Holding?
  }

  /** Whether anything is left that could wake a reader. */
  predicate SomethingLeft(s: State) {
    s.buffer != [] || s.errorPending || Delivers(s.p2) || Delivers(s.p3)
  }

  lemma StepRuns(s: State, e: Event)
    requires !Stopping(s) ==> !s.p2.pc.Exited?
    ensures !Stopping(Step(s, e)) ==> !Stopping(s) && !Step(s, e).p2.pc.Exited?
  {
  }

  /** Before the stop signal the loop of the datagram2s goes on. */
  lemma {:induction false} ProducerRuns(es: seq<Event>)
    ensures !Stopping(Run(es)) ==> !Run(es).p2.pc.Exited?
  {
    if es != [] {
      ProducerRuns(es[..|es| - 1]);
      StepRuns(Run(es[..|es| - 1]), es[|es| - 1]);
    }
  }

  predicate Stranded(s: State, r: Reader) {
    Stopping(s) && !SomethingLeft(s) && IsWaiting(s, r)
  }

  lemma StepStrands(s: State, e: Event, r: Reader)
    requires Stranded(s, r)
    ensures Stranded(Step(s, e), r) && Step(s, e).received == s.received
  {
  }

  /** Once nothing is left, nothing ever comes: neither channel is closed. */
  lemma {:induction false} NothingComes(s: State, es: seq<Event>, r: Reader)
    requires Stranded(s, r)
    ensures Stranded(After(s, es), r) && After(s, es).received == s.received
  {
    if es != [] {
      NothingComes(s, es[..|es| - 1], r);
      StepStrands(After(s, es[..|es| - 1]), es[|es| - 1], r);
    }
  }

  /** A run of one more event first. */
  lemma {:induction false} AfterFirst(s: State, e: Event, es: seq<Event>)
    ensures After(s, [e] + es) == After(Step(s, e), es)
  {
    if es == [] {
      assert [e] + es == [e] && [e][..0] == [];
    } else {
      AfterFirst(s, e, es[..|es| - 1]);
      assert ([e] + es)[..|es|] == [e] + es[..|es| - 1];
    }
  }

  /** Before the stop signal a failed read wakes a waiting reader with an error; after it the loop just exits. */
  lemma FailedReadIsReported(s: State, two: bool, r: Reader)
    requires IsWaiting(s, r) && ProducerOf(s, two).pc.Reading?
    ensures var s' := Step(s, Return(two, Failed));
            if Stopping(s) then ProducerOf(s', two).pc == Exited([]) && s'.errorPending == s.errorPending
            else ProducerOf(s', two).pc.AtTop? && Step(s', TakeError(r)).readers[r].ReturnedError?
  {
  }

  lemma ReturnsLater(s: State, e: Event, r: Reader)
    requires CanReturn(Step(s, e), r)
    ensures CanReturn(s, r)
  {
    var es :| !IsWaiting(After(Step(s, e), es), r);
    AfterFirst(s, e, es);
  }

  lemma ItemReturns(s: State, r: Reader)
    requires IsWaiting(s, r) && s.buffer != []
    ensures CanReturn(s, r)
  {
    assert [TakeItem(r)][..0] == [];
    assert !IsWaiting(After(s, [TakeItem(r)]), r);
  }

  /** A producer that holds an item, or gets one from its read, hands it to the reader. */
  lemma DeliveryReturns(s: State, two: bool, r: Reader)
    requires IsWaiting(s, r) && Delivers(ProducerOf(s, two))
    ensures CanReturn(s, r)
  {
    if s.buffer != [] {
      ItemReturns(s, r);
    } else if ProducerOf(s, two).pc.Holding? {
      ItemReturns(Step(s, Offer(two)), r);
      ReturnsLater(s, Offer(two), r);
    } else {
      var read := Return(two, Got([], "", true));
      assert ProducerOf(Step(s, read), two).pc.Holding?;
      ItemReturns(Step(Step(s, read), Offer(two)), r);
      ReturnsLater(Step(s, read), Offer(two), r);
      ReturnsLater(s, read, r);
    }
  }

  lemma LeftReturns(s: State, r: Reader)
    requires IsWaiting(s, r) && SomethingLeft(s)
    ensures CanReturn(s, r)
  {
    if s.buffer != [] {
      ItemReturns(s, r);
    } else if s.errorPending {
      assert [TakeError(r)][..0] == [];
      assert !IsWaiting(After(s, [TakeError(r)]), r);
    } else {
      DeliveryReturns(s, Delivers(s.p2), r);
    }
  }

  /** In every run a waiting reader can still return if and only if the stop signal has not come yet, or a datagram
      or an error is there to be taken, or a producer still reads or holds an item. */
  lemma ReaderReturnsExactlyWhen(es: seq<Event>, r: Reader)
    requires IsWaiting(Run(es), r)
    ensures CanReturn(Run(es), r) <==> !Stopping(Run(es)) || SomethingLeft(Run(es))
  {
    var s := Run(es);
    if SomethingLeft(s) {
      LeftReturns(s, r);
    } else if !Stopping(s) {
      ProducerRuns(es);
      LeftReturns(Step(s, Loop(true)), r);
      ReturnsLater(s, Loop(true), r);
    } else {
      forall more ensures IsWaiting(After(s, more), r) {
        NothingComes(s, more, r);
      }
    }
  }

  lemma Next(es: seq<Event>, e: Event) returns (es': seq<Event>)
    ensures es' == es + [e] && Run(es') == Step(Run(es), e)
  {
    es' := es + [e];
    assert es'[..|es|] == es;
  }

  /** A reader called in time, then Close: its call never returns. */
  lemma WaitingReaderIsStranded(r: Reader, c: Closer) returns (es: seq<Event>)
    ensures IsWaiting(Run(es), r) && Run(es).down.closed && !CanReturn(Run(es), r)
  {
    es := Next([], CallReceive(r));
    assert IsWaiting(Run(es), r);
    es := Next(es, CallClose(c));
    assert Run(es).down == Shutdown(true, map[c := StopReceiving], 0, 0, 0, 0);
    es := Next(es, AdvanceClose(c));
    assert Stopping(Run(es)) && Run(es).p2.pc.AtTop? && Run(es).p3.pc.AtTop?;
    es := Next(es, Loop(true));
    es := Next(es, Loop(false));
    ReaderReturnsExactlyWhen(es, r);
  }

  lemma StepRefuses(s: State, e: Event, r: Reader)
    requires s.down.closed && (r in s.readers ==> s.readers[r].Refused?)
    ensures var s' := Step(s, e); s'.down.closed && (r in s'.readers ==> s'.readers[r].Refused?)
  {
  }

  /** A reader called after Close is refused. */
  lemma {:induction false} LateReaderIsRefused(s: State, es: seq<Event>, r: Reader)
    requires s.down.closed && r !in s.readers
    ensures var s' := After(s, es); s'.down.closed && (r in s'.readers ==> s'.readers[r].Refused?)
  {
    if es != [] {
      LateReaderIsRefused(s, es[..|es| - 1], r);
      StepRefuses(After(s, es[..|es| - 1]), es[|es| - 1], r);
    }
  }
}
