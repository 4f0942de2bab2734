/** The quality score against the order in which datagram2s were answered and timed out. */
module PathHistory {
  import opened Base
  import opened SenderSpec
  import opened SendMachine
  import opened UnackedFifo
  import opened PathMetrics

  /** How many of a list of ACKs answer an outstanding datagram2. */
  function Hits(v: View, acks: seq<AckEvent>): nat {
    if acks == [] then 0
    else
      var front, last := acks[..|acks| - 1], acks[|acks| - 1];
      Hits(v, front) + if last.seqNum in AckAll(v, front).unacked then 1 else 0
  }

  /** n ACKs that answer bring a quality q > 0 n times a tenth of the way to 1, whatever other ACKs come between them;
      from 0 the first takes it to 1. */
  lemma {:induction false} AnswersApproachOne(v: View, acks: seq<AckEvent>)
    requires 0.0 <= v.quality <= 1.0
    ensures var n, q := Hits(v, acks), AckAll(v, acks).quality;
            && 0.0 <= q <= 1.0
            && (v.quality > 0.0 ==> q > 0.0 && 1.0 - q == Fade(1.0 - v.quality, n))
            && (v.quality == 0.0 ==> q == if n == 0 then 0.0 else 1.0)
  {
    if acks != [] {
      var front, last := acks[..|acks| - 1], acks[|acks| - 1];
      AnswersApproachOne(v, front);
      if last.seqNum in AckAll(v, front).unacked {
        MatchedAck(AckAll(v, front), last.seqNum, last.now);
      }
    }
  }

  /** The score of a sequence of answers and timeouts: nothing before the first answer, which sets it to 1; from then
      on each moves it a tenth of the way, an answer to 1 and a timeout to 0. */
  function Score(answered: seq<bool>): (q: real)
    ensures 0.0 <= q <= 1.0
    ensures q == 0.0 <==> true !in answered
  {
    if answered == [] then 0.0
    else
      var front, last := answered[..|answered| - 1], answered[|answered| - 1];
      assert answered == front + [last];
      if !last then 0.9 * Score(front) else if true !in front then 1.0 else 0.9 * Score(front) + 0.1
  }

  function Timeouts(n: nat): seq<bool> {
    if n == 0 then [] else Timeouts(n - 1) + [false]
  }

  /** What became of datagram2s in a run, in the order in which the sender learned it. */
  function Outcomes(es: seq<Event>): seq<bool> {
    if es == [] then []
    else
      var front, e := es[..|es| - 1], es[|es| - 1];
      var s := Run(front);
      Outcomes(front) +
      if !Enabled(s, e) then []
      else match e
           case AckArrives(seqNum, _) => if seqNum in s.v.unacked then [true] else []
           case Sweep(now) => Timeouts(|Overdue(s.v.unacked, now)|)
           case _ => []
  }

  lemma {:induction false} ScoreAfterTimeouts(answered: seq<bool>, n: nat)
    ensures Score(answered + Timeouts(n)) == Fade(Score(answered), n)
  {
    if n == 0 {
      assert answered + [] == answered;
    } else {
      ScoreAfterTimeouts(answered, n - 1);
      Associative(answered, Timeouts(n - 1), [false]);
      ScoreAfterTimeout(answered + Timeouts(n - 1));
    }
  }

  lemma Associative(a: seq<bool>, b: seq<bool>, c: seq<bool>)
    ensures a + (b + c) == (a + b) + c
  {
  }

  lemma ScoreAfterTimeout(answered: seq<bool>)
    ensures Score(answered + [false]) == 0.9 * Score(answered)
  {
    assert (answered + [false])[..|answered|] == answered;
  }

  lemma ScoreAfterAnswer(answered: seq<bool>)
    ensures var q := Score(answered);
            Score(answered + [true]) == if q == 0.0 then 1.0 else 1.0 - 0.9 * (1.0 - q)
  {
    assert (answered + [true])[..|answered|] == answered;
  }

  /** In every interleaving the quality is the score of what became of the datagram2s, in the order in which the
      sender learned it. */
  lemma {:induction false} QualityIsScore(es: seq<Event>)
    ensures Run(es).v.quality == Score(Outcomes(es))
  {
    if es != [] {
      var front, e := es[..|es| - 1], es[|es| - 1];
      var s := Run(front);
      QualityIsScore(front);
      if Enabled(s, e) && e.AckArrives? && e.seqNum in s.v.unacked {
        AnswerScores(s, Outcomes(front), e.seqNum, e.now);
      } else if Enabled(s, e) && e.Sweep? {
        SweepScores(s, Outcomes(front), e.now);
      } else {
        assert Outcomes(front) + [] == Outcomes(front);
        OthersKeepQuality(s, e);
      }
    }
  }

  lemma AnswerScores(s: System, answered: seq<bool>, seqNum: U64, now: Time)
    requires Enabled(s, AckArrives(seqNum, now)) && seqNum in s.v.unacked && s.v.quality == Score(answered)
    ensures Step(s, AckArrives(seqNum, now)).v.quality == Score(answered + [true])
  {
    MatchedAck(s.v, seqNum, now);
    ScoreAfterAnswer(answered);
  }

  lemma SweepScores(s: System, answered: seq<bool>, now: Time)
    requires Enabled(s, Sweep(now)) && s.v.quality == Score(answered)
    ensures Step(s, Sweep(now)).v.quality == Score(answered + Timeouts(|Overdue(s.v.unacked, now)|))
  {
    SweepFades(s.v, now);
    ScoreAfterTimeouts(answered, |Overdue(s.v.unacked, now)|);
    assert Step(s, Sweep(now)).v == Swept(s.v, now);
  }

  lemma OthersKeepQuality(s: System, e: Event)
    requires Enabled(s, e) ==> !e.Sweep? && (e.AckArrives? ==> e.seqNum !in s.v.unacked)
    ensures Step(s, e).v.quality == s.v.quality
  {
  }
}
