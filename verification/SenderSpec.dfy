/** What each lock section of SenderState computes, as functions on the values of its fields
    (hybrid2/sender.go). */
module SenderSpec {
  import opened Base

  datatype View = View(
    counter: U64,
    lastSend: Option<Time>,
    lastDatagram2: Option<Time>,
    lastSeqNum: U64,
    lastAcked: U64,
    unacked: map<U64, Time>,
    rtt: U64,
    quality: real)

  const Initial: View := View(0, None, None, 0, 0, map[], 0, 0.0)

  /** The time trigger; None is the zero time of a sender that never sent a datagram2. */
  predicate RefreshDue(last: Option<Time>, now: Time) {
    last.None? || Elapsed(last.value, now) >= REPLIABLE_TIME_INTERVAL
  }

  predicate UsesDatagram2(v: View, now: Time) {
    v.counter % REPLIABLE_INTERVAL == 0 || RefreshDue(v.lastDatagram2, now)
  }

  function Increment(v: View, now: Time): View {
    v.(counter := Succ(v.counter), lastSend := Some(now))
  }

  function Mark(v: View, now: Time): View {
    v.(lastDatagram2 := Some(now), lastSeqNum := Succ(v.lastSeqNum))
  }

  /** Whether a datagram2 asks for an ACK under a given AckRequestInterval, which is a variable in the code. */
  predicate RequestsAckEvery(v: View, interval: nat)
    requires interval > 0
  {
    v.rtt == 0 || v.lastSeqNum % interval == 0 || |v.unacked| >= MAX_UNACKED - 1
  }

  predicate RequestsAck(v: View) {
    RequestsAckEvery(v, ACK_REQUEST_INTERVAL)
  }

  /** With an ACK requested every single datagram2, every datagram2 asks for one. */
  lemma EveryDatagram2RequestsAck(v: View)
    ensures RequestsAck(v)
  {
  }

  /** Under any interval an ACK is asked for until one has been measured, on every multiple of the interval, and while
      two datagram2s are outstanding, and at no other time. */
  lemma AsksExactlyWhen(v: View, interval: nat)
    requires interval > 0
    ensures RequestsAckEvery(v, interval) <==> v.rtt == 0 || v.lastSeqNum % interval == 0 || |v.unacked| >= 2
  {
  }

  function Track(v: View, seqNum: U64, now: Time): View {
    v.(unacked := v.unacked[seqNum := now])
  }

  function Reset(v: View, value: U64, now: Time): View {
    v.(counter := value, lastSend := Some(now))
  }

  /** Whole milliseconds of a duration, with negative durations counted as 0. */
  function SampleMs(d: int): (ms: nat)
    requires d <= MAX_DURATION
    ensures ms <= MAX_DURATION / MILLISECOND
  {
    if d < 0 then 0 else d / MILLISECOND
  }

  function NextRtt(rtt: U64, sample: U64): U64 {
    if rtt == 0 then sample else (7 * rtt + sample) % TWO64 / 8
  }

  function Raised(quality: real): real {
    if quality == 0.0 then 1.0 else 0.9 * quality + 0.1
  }

  function Lowered(quality: real): real {
    if quality > 0.0 then 0.9 * quality else quality
  }

  function LoweredBy(quality: real, timeouts: nat): real
    decreases timeouts
  {
    if timeouts == 0 then quality else LoweredBy(Lowered(quality), timeouts - 1)
  }

  function Newer(unacked: map<U64, Time>, seqNum: U64): map<U64, Time> {
    map k | k in unacked && k > seqNum :: unacked[k]
  }

  function Acked(v: View, seqNum: U64, now: Time): View {
    if seqNum !in v.unacked then v
    else v.(
         rtt := NextRtt(v.rtt, SampleMs(Elapsed(v.unacked[seqNum], now))),
         quality := Raised(v.quality),
         lastAcked := if seqNum > v.lastAcked then seqNum else v.lastAcked,
         unacked := Newer(v.unacked, seqNum))
  }

  predicate Stale(sent: Time, now: Time) {
    Elapsed(sent, now) > ACK_TIMEOUT
  }

  function Recent(unacked: map<U64, Time>, now: Time): map<U64, Time> {
    map k | k in unacked && !Stale(unacked[k], now) :: unacked[k]
  }

  function TimedOut(v: View, now: Time): (n: nat) {
    RecentKeys(v.unacked, now);
    |v.unacked| - |Recent(v.unacked, now)|
  }

  function Swept(v: View, now: Time): View {
    v.(unacked := Recent(v.unacked, now), quality := LoweredBy(v.quality, TimedOut(v, now)))
  }

  lemma RecentKeys(unacked: map<U64, Time>, now: Time)
    ensures |Recent(unacked, now)| <= |unacked|
  {
    SubsetSize(Recent(unacked, now).Keys, unacked.Keys);
  }

  /** The time GetPathStats reports as that of the last ACK: the least send time outstanding, and the last mark when
      none is. */
  predicate ReportedLastAck(v: View, reported: Option<Time>) {
    if v.unacked == map[] then reported == v.lastDatagram2
    else
      && reported.Some? && reported.value in v.unacked.Values
      && forall k | k in v.unacked :: reported.value <= v.unacked[k]
  }

  datatype SendTimes = SendTimes(check: Time, mark: Time, track: Time, done: Time)

  /** Everything one uninterrupted SendDatagram does to the state: a failed datagram2 still moves
      the mark, and the counter moves on success only. */
  function Sent(v: View, t: SendTimes, ok: bool): View {
    var v' :=
      if !UsesDatagram2(v, t.check) then v
      else var m := Mark(v, t.mark); if RequestsAck(m) then Track(m, m.lastSeqNum, t.track) else m;
    if ok then Increment(v', t.done) else v'
  }

  function Forced(v: View, t: SendTimes, ok: bool): View {
    var m := Mark(v, t.mark);
    if ok then Reset(m, 1, t.done) else m
  }
}
