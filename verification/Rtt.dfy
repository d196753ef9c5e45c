/**
 * RTT estimation and the timers that depend on it (sections 5 and 6 of RFC 9002).
 * Durations and instants are counts of nanoseconds.
 */
module Rtt {
  import opened Common
  import SP = SentPackets

  const GRANULARITY: nat := 1_000_000
  const INITIAL_RTT: nat := 333_000_000

  datatype Estimate = Estimate(latest: nat, min: nat, smoothed: nat, variation: nat, sampled: bool) {
    function Update(sample: nat, ackDelay: nat, maxAckDelay: nat): (r: Estimate) {
      if !sampled then Estimate(sample, sample, sample, sample / 2, true)
      else
        var least := Min(min, sample);
        var delay := Min(ackDelay, maxAckDelay);
        var adjusted := if sample >= least + delay then sample - delay else sample;
        Estimate(sample, least, (smoothed * 7 + adjusted) / 8, (variation * 3 + Distance(smoothed, adjusted)) / 4, true)
    }

    function LossDelay(): (d: nat) { Max(Max(latest, smoothed) * 9 / 8, GRANULARITY) }

    function PtoBase(maxAckDelay: nat): (d: nat) { smoothed + Max(variation * 4, GRANULARITY) + maxAckDelay }
  }

  const NEW_ESTIMATE: Estimate := Estimate(0, 0, INITIAL_RTT, INITIAL_RTT / 2, false)

  function Distance(a: nat, b: nat): (d: nat) { if a >= b then a - b else b - a }

  class RttEstimator {
    var latestRtt: nat
    var minRtt: nat
    var smoothedRtt: nat
    var rttvar: nat
    var haveSample: bool

    function Value(): (e: Estimate)
      reads this
    {
      Estimate(latestRtt, minRtt, smoothedRtt, rttvar, haveSample)
    }

    constructor ()
      ensures Value() == NEW_ESTIMATE
    {
      latestRtt, minRtt, smoothedRtt, rttvar, haveSample := 0, 0, INITIAL_RTT, INITIAL_RTT / 2, false;
    }

    method Update(sample: nat, ackDelay: nat, maxAckDelay: nat)
      modifies this
      ensures Value() == old(Value()).Update(sample, ackDelay, maxAckDelay)
    {
      latestRtt := sample;
      if !haveSample {
        minRtt := sample;
        smoothedRtt := sample;
        rttvar := sample / 2;
        haveSample := true;
        return;
      }
      minRtt := Min(minRtt, sample);
      var delay := Min(ackDelay, maxAckDelay);
      var adjusted := latestRtt;
      if latestRtt >= minRtt + delay {
        adjusted := latestRtt - delay;
      }
      rttvar := (rttvar * 3 + Distance(smoothedRtt, adjusted)) / 4;
      smoothedRtt := (smoothedRtt * 7 + adjusted) / 8;
    }
  }

  // ------------------------------------------------------------ every sample sequence

  datatype Sample = Sample(rtt: nat, ackDelay: nat, maxAckDelay: nat)

  function After(samples: seq<Sample>): (e: Estimate) {
    if samples == [] then NEW_ESTIMATE
    else
      var last := samples[|samples| - 1];
      After(samples[..|samples| - 1]).Update(last.rtt, last.ackDelay, last.maxAckDelay)
  }

  predicate AtLeast(samples: seq<Sample>, lo: nat) { forall i :: 0 <= i < |samples| ==> lo <= samples[i].rtt }

  predicate AtMost(samples: seq<Sample>, hi: nat) { forall i :: 0 <= i < |samples| ==> samples[i].rtt <= hi }

  predicate Occurs(samples: seq<Sample>, rtt: nat) { exists i :: 0 <= i < |samples| && samples[i].rtt == rtt }

  /** Between two bounds of the samples, whatever ACK delays the peer claims. */
  ghost predicate Bounded(e: Estimate, hi: nat) {
    e.min <= e.latest <= hi && e.min <= e.smoothed <= hi && e.variation <= hi
  }

  lemma UpdateBounded(e: Estimate, s: Sample, hi: nat)
    requires e.sampled && Bounded(e, hi) && s.rtt <= hi
    ensures Bounded(e.Update(s.rtt, s.ackDelay, s.maxAckDelay), hi)
  {
  }

  /**
   * After any samples: `min` is the smallest of them, `latest` the last, and the smoothed
   * value and the variation stay between the smallest and the largest.
   */
  lemma {:induction false} EstimateBounds(samples: seq<Sample>, hi: nat)
    requires samples != [] && AtMost(samples, hi)
    ensures var e := After(samples);
            && e.sampled && e.latest == samples[|samples| - 1].rtt
            && AtLeast(samples, e.min) && Occurs(samples, e.min)
            && Bounded(e, hi)
  {
    var front, last := samples[..|samples| - 1], samples[|samples| - 1];
    if front == [] {
      assert samples[0].rtt == last.rtt;
    } else {
      EstimateBounds(front, hi);
      UpdateBounded(After(front), last, hi);
      var k :| 0 <= k < |front| && front[k].rtt == After(front).min;
      assert samples[k].rtt == After(front).min && samples[|samples| - 1].rtt == last.rtt;
      assert forall i :: 0 <= i < |front| ==> samples[i] == front[i];
    }
  }

  /** The first sample is taken as it is, with half of it as the variation. */
  lemma FirstSample(x: nat, ackDelay: nat, maxAckDelay: nat)
    ensures var e := NEW_ESTIMATE.Update(x, ackDelay, maxAckDelay);
            && e.sampled && e.latest == e.min == e.smoothed == x && 2 * e.variation <= x <= 2 * e.variation + 1
    ensures NEW_ESTIMATE.smoothed == 333_000_000 && NEW_ESTIMATE.variation == 166_500_000
  {
  }

  /**
   * The sample that counts: the ACK delay, as far as the peer may claim one, is taken off,
   * unless that would leave less than the smallest sample, this one included.
   */
  function Counted(e: Estimate, x: nat, ackDelay: nat, maxAckDelay: nat): (y: nat)
    ensures y <= x && (ackDelay == 0 || maxAckDelay == 0 ==> y == x)
    ensures y < x ==> y >= e.min && (y + ackDelay == x || y + maxAckDelay == x)
    ensures e.min + Min(ackDelay, maxAckDelay) <= x ==> y + Min(ackDelay, maxAckDelay) == x
  {
    var d := Min(ackDelay, maxAckDelay);
    if e.min + d <= x then x - d else x
  }

  /**
   * Every later sample moves the smoothed value one eighth of the way towards what counts of
   * it, and the variation one quarter of the way towards the distance, up to rounding.
   */
  lemma MovesByItsShare(e: Estimate, x: nat, ackDelay: nat, maxAckDelay: nat)
    requires e.sampled
    ensures var r := e.Update(x, ackDelay, maxAckDelay);
            var y := Counted(e, x, ackDelay, maxAckDelay);
            var d := Distance(e.smoothed, y);
            && r.latest == x
            && 7 * d <= 8 * Distance(r.smoothed, y) + 7 <= 7 * d + 14
            && (r.smoothed >= y <==> e.smoothed >= y || r.smoothed == y)
            && 3 * e.variation + d <= 4 * r.variation + 3 <= 3 * e.variation + d + 3
  {
  }

  /** Equal samples: the smoothed value closes in on them geometrically. */
  lemma {:induction false} Converges(e: Estimate, x: nat, n: nat)
    requires e.sampled
    ensures Repeat(e, x, n).sampled
    ensures (Distance(Repeat(e, x, n).smoothed, x) - 7) * Pow(8, n) <= (Distance(e.smoothed, x) - 7) * Pow(7, n)
    decreases n
  {
    if n == 0 {
    } else {
      Converges(e, x, n - 1);
      var before := Repeat(e, x, n - 1);
      MovesByItsShare(before, x, 0, 0);
      var d, d' := Distance(before.smoothed, x) - 7, Distance(Repeat(e, x, n).smoothed, x) - 7;
      assert 8 * d' <= 7 * d;
      hide Repeat, Distance, Estimate.Update;
      Shrink(d, d', Distance(e.smoothed, x) - 7, Pow(8, n - 1), Pow(7, n - 1));
    }
  }

  function Repeat(e: Estimate, x: nat, n: nat): (r: Estimate) {
    if n == 0 then e else Repeat(e, x, n - 1).Update(x, 0, 0)
  }

  function Pow(b: nat, n: nat): (p: nat) { if n == 0 then 1 else b * Pow(b, n - 1) }

  lemma Shrink(d: int, d': int, start: int, a: nat, b: nat)
    requires 8 * d' <= 7 * d && d * a <= start * b
    ensures d' * (8 * a) <= start * (7 * b)
  {
    assert d' * (8 * a) == (8 * d') * a;
    assert (8 * d') * a <= (7 * d) * a by {
      assert (7 * d - 8 * d') * a >= 0;
      assert (7 * d) * a - (8 * d') * a == (7 * d - 8 * d') * a;
    }
    assert (7 * d) * a == 7 * (d * a) && start * (7 * b) == 7 * (start * b);
  }

  /** The loss timer never runs below any recent round trip, nor the granularity. */
  lemma LossDelayFloor(samples: seq<Sample>)
    requires samples != []
    ensures var e := After(samples);
            && e.LossDelay() >= e.min && e.LossDelay() >= e.smoothed && e.LossDelay() >= e.latest
            && e.LossDelay() >= GRANULARITY
  {
    var hi := Largest(samples);
    EstimateBounds(samples, hi);
  }

  function Largest(samples: seq<Sample>): (hi: nat)
    ensures AtMost(samples, hi)
  {
    if samples == [] then 0
    else
      var front, last := samples[..|samples| - 1], samples[|samples| - 1];
      assert samples == front + [last];
      Max(Largest(front), last.rtt)
  }

  /**
   * The two timers are what section 6 of RFC 9002 gives: nine eighths of the larger of the
   * latest and the smoothed value, and the smoothed value plus four variations plus the ACK
   * delay; a millisecond stands in for the first, and for the variations, where it is more.
   */
  lemma TimersExact(e: Estimate, maxAckDelay: nat)
    ensures var d, x := e.LossDelay(), Max(e.latest, e.smoothed);
            && d >= 1_000_000 && 8 * d + 7 >= 9 * x && (d == 1_000_000 || 8 * d <= 9 * x)
    ensures var extra := e.PtoBase(maxAckDelay) - e.smoothed - maxAckDelay;
            && extra >= 1_000_000 && extra >= 4 * e.variation && (extra == 1_000_000 || extra == 4 * e.variation)
  {
  }

  /** The probe timeout before backoff, in terms of the largest sample. */
  lemma PtoBounds(samples: seq<Sample>, hi: nat, maxAckDelay: nat)
    requires samples != [] && AtMost(samples, hi)
    ensures var pto := After(samples).PtoBase(maxAckDelay);
            After(samples).min + GRANULARITY + maxAckDelay <= pto <= 5 * hi + GRANULARITY + maxAckDelay
  {
    EstimateBounds(samples, hi);
  }

  /**
   * Loss detection with this delay: a packet declared lost either is three or more
   * numbers behind an acknowledged one, or was sent at least the smallest round trip ago.
   */
  lemma LossIsNotPremature(s: SP.SentState, now: nat, samples: seq<Sample>, p: SP.SentPacket)
    requires SP.Keyed(s.sent) && samples != []
    requires p in SP.FindLost(s, now, After(samples).LossDelay()).1
    ensures s.largestAcked.Some? && p.number <= s.largestAcked.value
    ensures p.number + SP.PACKET_THRESHOLD <= s.largestAcked.value || now - p.timeSent >= After(samples).min
  {
    var delay := After(samples).LossDelay();
    LossDelayFloor(samples);
    SP.DetectLostExact(s, now, delay);
    var (s', lost, _) := SP.FindLost(s, now, delay);
    var i :| 0 <= i < |lost| && lost[i] == p;
    assert p.number in s.sent && s.sent[p.number] == p && p.number !in s'.sent;
    assert SP.Doomed(s, p.number, now, delay);
  }

  // ------------------------------------------------------------------------- timers

  const MAX_BACKOFF: nat := 20

  /** The loss-detection timer: a deadline per space, and the probe backoff. */
  class LossDetection {
    var ptoCount: nat
    var lossTime: seq<Option<nat>>

    ghost predicate Valid()
      reads this
    {
      |lossTime| == 3
    }

    constructor ()
      ensures Valid() && ptoCount == 0 && lossTime == [None, None, None]
    {
      ptoCount, lossTime := 0, [None, None, None];
    }

    method SetLossTime(space: nat, time: Option<nat>)
      requires Valid() && space < 3
      modifies `lossTime
      ensures Valid() && lossTime == old(lossTime)[space := time]
    {
      lossTime := lossTime[space := time];
    }

    /** The earliest deadline; of equal ones, the first space. */
    method EarliestLossTime() returns (best: Option<(nat, nat)>)
      requires Valid()
      ensures best.None? <==> forall i :: 0 <= i < 3 ==> lossTime[i].None?
      ensures best.Some? ==>
                var (t, space) := best.value;
                && space < 3 && lossTime[space] == Some(t)
                && (forall i :: 0 <= i < 3 && lossTime[i].Some? ==> t <= lossTime[i].value)
                && (forall i :: 0 <= i < space && lossTime[i].Some? ==> t < lossTime[i].value)
    {
      best := None;
      for i := 0 to 3
        invariant best.None? <==> forall j :: 0 <= j < i ==> lossTime[j].None?
        invariant best.Some? ==>
                    var (t, space) := best.value;
                    && space < i && lossTime[space] == Some(t)
                    && (forall j :: 0 <= j < i && lossTime[j].Some? ==> t <= lossTime[j].value)
                    && (forall j :: 0 <= j < space && lossTime[j].Some? ==> t < lossTime[j].value)
      {
        if lossTime[i].Some? && !(best.Some? && best.value.0 <= lossTime[i].value) {
          best := Some((lossTime[i].value, i));
        }
      }
    }

    method IncreasePtoCount()
      modifies `ptoCount
      ensures ptoCount == old(ptoCount) + 1
    {
      ptoCount := ptoCount + 1;
    }

    method ResetPtoCount()
      modifies `ptoCount
      ensures ptoCount == 0
    {
      ptoCount := 0;
    }

    method PtoDeadline(earliestSent: nat, ptoBase: nat) returns (t: nat)
      ensures t == earliestSent + ProbeInterval(ptoBase, ptoCount)
    {
      t := earliestSent + ptoBase * Pow(2, Min(ptoCount, MAX_BACKOFF));
    }
  }

  function ProbeInterval(ptoBase: nat, count: nat): (d: nat) { ptoBase * Pow(2, Min(count, MAX_BACKOFF)) }

  /** Each timeout in a row doubles the probe interval, until the cap; it never shrinks. */
  lemma BackoffDoubles(ptoBase: nat, count: nat)
    ensures ProbeInterval(ptoBase, 0) == ptoBase
    ensures count < 20 ==> ProbeInterval(ptoBase, count + 1) == 2 * ProbeInterval(ptoBase, count)
    ensures count >= 20 ==> ProbeInterval(ptoBase, count + 1) == ProbeInterval(ptoBase, count)
  {
    if count < MAX_BACKOFF {
      assert ptoBase * (2 * Pow(2, count)) == 2 * (ptoBase * Pow(2, count));
    }
  }
}
