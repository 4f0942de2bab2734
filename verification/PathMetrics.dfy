/** Laws of the RTT average and of the quality score over whole runs. Quality is a real number here. */
module PathMetrics {
  import opened Base
  import opened SenderSpec

  /** The largest sample: a 64-bit duration in whole milliseconds. */
  const MAX_SAMPLE: nat := MAX_DURATION / MILLISECOND

  predicate Samples(samples: seq<U64>, low: nat, high: nat) {
    forall i | 0 <= i < |samples| :: low <= samples[i] <= high
  }

  /** The average after the given samples, starting unmeasured. */
  function Average(samples: seq<U64>): U64 {
    if samples == [] then 0 else NextRtt(Average(samples[..|samples| - 1]), samples[|samples| - 1])
  }

  lemma NextInRange(rtt: U64, sample: U64, low: nat, high: nat)
    requires low <= rtt <= high && low <= sample <= high && high <= MAX_SAMPLE
    ensures 7 * rtt + sample < TWO64 && low <= NextRtt(rtt, sample) <= high
  {
    assert 8 * low <= 7 * rtt + sample <= 8 * high;
    assert 8 * high < TWO64;
  }

  /** The 64-bit update never wraps on samples that are durations, and stays between the least
      and the greatest sample. */
  lemma {:induction false} AverageStaysInRange(samples: seq<U64>, low: nat, high: nat)
    requires samples != [] && Samples(samples, low, high) && high <= MAX_SAMPLE
    ensures low <= Average(samples) <= high
    ensures var n := |samples| - 1;
            7 * Average(samples[..n]) + samples[n] < TWO64
  {
    var n := |samples| - 1;
    if n > 0 {
      AverageStaysInRange(samples[..n], low, high);
      NextInRange(Average(samples[..n]), samples[n], low, high);
    } else {
      assert Average(samples[..0]) == 0;
    }
  }

  /** One update with sample s shrinks the distance to s by an eighth: rounded down from above,
      rounded up from below. */
  lemma DistanceShrinks(rtt: U64, s: U64)
    requires 0 < rtt <= MAX_SAMPLE && s <= MAX_SAMPLE
    ensures rtt >= s ==> NextRtt(rtt, s) == s + 7 * (rtt - s) / 8
    ensures rtt <= s ==> NextRtt(rtt, s) == s - (7 * (s - rtt) + 7) / 8
    ensures NextRtt(rtt, s) == rtt <==> 0 <= s - rtt <= 7
  {
    assert NextRtt(rtt, s) == (7 * rtt + s) / 8;
    Eighths(rtt, s);
  }

  lemma Eighths(rtt: nat, s: nat)
    ensures rtt >= s ==> (7 * rtt + s) / 8 == s + 7 * (rtt - s) / 8
    ensures rtt <= s ==> (7 * rtt + s) / 8 == s - (7 * (s - rtt) + 7) / 8
  {
  }

  function Repeated(rtt: U64, s: U64, n: nat): U64
    decreases n
  {
    if n == 0 then rtt else Repeated(NextRtt(rtt, s), s, n - 1)
  }

  function Distance(a: int, b: int): nat {
    if a >= b then a - b else b - a
  }

  /** Under a constant sample the average reaches it from above and stops within 7 ms below it. */
  lemma {:induction false} ConstantSampleConverges(rtt: U64, s: U64, n: nat)
    requires 0 < rtt <= MAX_SAMPLE && 0 < s <= MAX_SAMPLE
    requires n >= Distance(rtt, s)
    ensures rtt >= s ==> Repeated(rtt, s, n) == s
    ensures rtt < s ==> s - 7 <= Repeated(rtt, s, n) <= s && Repeated(rtt, s, n) >= rtt
    decreases n
  {
    if n > 0 {
      DistanceShrinks(rtt, s);
      if 0 <= s - rtt <= 7 {
        Stays(rtt, s, n);
      } else {
        ConstantSampleConverges(NextRtt(rtt, s), s, n - 1);
      }
    }
  }

  lemma {:induction false} Stays(rtt: U64, s: U64, n: nat)
    requires NextRtt(rtt, s) == rtt
    ensures Repeated(rtt, s, n) == rtt
  {
    if n > 0 {
      Stays(rtt, s, n - 1);
    }
  }

  /** An unmeasured average takes the first sample as it is, so a constant sample is exact at once. */
  lemma UnmeasuredIsExact(s: U64, n: nat)
    requires 0 < s <= MAX_SAMPLE && n > 0
    ensures Repeated(0, s, n) == s
  {
    Stays(s, s, n - 1);
  }

  function Power(b: real, n: nat): real {
    if n == 0 then 1.0 else b * Power(b, n - 1)
  }

  lemma {:induction false} TimeoutsScaleQuality(q: real, n: nat)
    requires 0.0 <= q
    ensures LoweredBy(q, n) == Power(0.9, n) * q
    decreases n
  {
    if n > 0 {
      TimeoutsScaleQuality(Lowered(q), n - 1);
      assert Lowered(q) == 0.9 * q;
      assert Power(0.9, n - 1) * (0.9 * q) == Power(0.9, n) * q;
    }
  }

  /** A matched ACK takes the quality from 0 to 1, and otherwise a tenth of the way to 1. */
  lemma MatchedAck(v: View, seqNum: U64, now: Time)
    requires seqNum in v.unacked
    ensures v.quality == 0.0 ==> Acked(v, seqNum, now).quality == 1.0
    ensures v.quality != 0.0 ==> 1.0 - Acked(v, seqNum, now).quality == 0.9 * (1.0 - v.quality)
  {
  }

  /** The sample of a matched ACK is the whole milliseconds since the send, and 0 for a send in the future. */
  lemma SampleIs(sent: Time, now: Time)
    requires now - sent <= MAX_DURATION
    ensures SampleMs(Elapsed(sent, now)) == if now < sent then 0 else (now - sent) / 1_000_000
  {
  }

  /** An unmeasured average takes the sample, and a measured one moves an eighth of the way to it. */
  lemma MatchedRtt(v: View, seqNum: U64, now: Time)
    requires seqNum in v.unacked && now - v.unacked[seqNum] <= MAX_DURATION && v.rtt <= MAX_SAMPLE
    ensures var rtt := Acked(v, seqNum, now).rtt;
            var ms := if now < v.unacked[seqNum] then 0 else (now - v.unacked[seqNum]) / 1_000_000;
            if v.rtt == 0 then rtt == ms else 8 * rtt <= 7 * v.rtt + ms < 8 * rtt + 8
  {
    SampleIs(v.unacked[seqNum], now);
    if v.rtt > 0 {
      EighthOfTheWay(v.rtt, SampleMs(Elapsed(v.unacked[seqNum], now)));
    }
  }

  lemma EighthOfTheWay(rtt: U64, sample: U64)
    requires 0 < rtt <= MAX_SAMPLE && sample <= MAX_SAMPLE
    ensures 8 * NextRtt(rtt, sample) <= 7 * rtt + sample < 8 * NextRtt(rtt, sample) + 8
  {
  }

  /** The numbers of the datagram2s sent more than ten seconds ago. */
  function Overdue(unacked: map<U64, Time>, now: Time): set<U64> {
    set k | k in unacked && now - unacked[k] > 10 * SECOND
  }

  lemma RecentIsNotOverdue(unacked: map<U64, Time>, now: Time)
    ensures Recent(unacked, now).Keys == unacked.Keys - Overdue(unacked, now)
  {
    forall k | k in unacked ensures k in Recent(unacked, now) <==> k !in Overdue(unacked, now) {}
  }

  lemma DifferenceSize<T>(all: set<T>, part: set<T>)
    requires part <= all
    ensures |all| - |all - part| == |part|
  {
    assert all == (all - part) + part;
  }

  lemma OverdueCount(v: View, now: Time)
    ensures TimedOut(v, now) == |Overdue(v.unacked, now)|
  {
    RecentIsNotOverdue(v.unacked, now);
    DifferenceSize(v.unacked.Keys, Overdue(v.unacked, now));
  }

  lemma SweepWindow(v: View, now: Time)
    ensures Swept(v, now).unacked.Keys == v.unacked.Keys - Overdue(v.unacked, now)
    ensures forall k | k in Swept(v, now).unacked :: Swept(v, now).unacked[k] == v.unacked[k]
  {
    RecentIsNotOverdue(v.unacked, now);
  }

  /** n factors of 0.9. */
  function Fade(x: real, n: nat): real {
    if n == 0 then x else 0.9 * Fade(x, n - 1)
  }

  lemma {:induction false} FadeIsPower(x: real, n: nat)
    ensures Fade(x, n) == Power(0.9, n) * x
  {
    if n > 0 {
      FadeIsPower(x, n - 1);
    }
  }

  lemma {:induction false} LoweredFades(q: real, n: nat)
    requires 0.0 <= q
    ensures LoweredBy(q, n) == Fade(q, n)
    decreases n
  {
    if n > 0 {
      LoweredFades(Lowered(q), n - 1);
      FadeFirst(q, n - 1);
    }
  }

  lemma {:induction false} FadeFirst(q: real, n: nat)
    ensures Fade(0.9 * q, n) == 0.9 * Fade(q, n)
  {
    if n > 0 {
      FadeFirst(q, n - 1);
    }
  }

  lemma SweepFades(v: View, now: Time)
    requires 0.0 <= v.quality
    ensures Swept(v, now).quality == Fade(v.quality, |Overdue(v.unacked, now)|)
  {
    OverdueCount(v, now);
    LoweredFades(v.quality, TimedOut(v, now));
  }

  /** A sweep removes a datagram2 if and only if it was sent more than ten seconds ago, multiplies the quality by 0.9
      for each it removes, and changes nothing else. */
  lemma SweepIs(v: View, now: Time)
    requires 0.0 <= v.quality
    ensures var v' := Swept(v, now);
            && v'.unacked.Keys == v.unacked.Keys - Overdue(v.unacked, now)
            && (forall k | k in v'.unacked :: v'.unacked[k] == v.unacked[k])
            && v'.quality == Fade(v.quality, |Overdue(v.unacked, now)|)
            && v' == v.(unacked := v'.unacked, quality := v'.quality)
  {
    SweepWindow(v, now);
    SweepFades(v, now);
  }

  function RaisedBy(q: real, acks: nat): real {
    if acks == 0 then q else Raised(RaisedBy(q, acks - 1))
  }

  lemma {:induction false} AcksApproachOne(q: real, n: nat)
    requires 0.0 < q <= 1.0
    ensures RaisedBy(q, n) == 1.0 - Power(0.9, n) * (1.0 - q)
    ensures 0.0 < q <= RaisedBy(q, n) <= 1.0
  {
    if n > 0 {
      AcksApproachOne(q, n - 1);
      assert 0.9 * (Power(0.9, n - 1) * (1.0 - q)) == Power(0.9, n) * (1.0 - q);
    }
  }

  lemma {:induction false} LoweredStaysPositive(q: real, n: nat)
    requires 0.0 <= q <= 1.0
    ensures 0.0 <= LoweredBy(q, n) <= q
    ensures LoweredBy(q, n) == 0.0 <==> q == 0.0
    decreases n
  {
    if n > 0 {
      LoweredStaysPositive(Lowered(q), n - 1);
    }
  }
}
