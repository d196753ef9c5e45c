/**
 * Acknowledgement state of one packet-number space (sections 12.3, 13.2 and 19.3 of
 * RFC 9000): received numbers are kept as sorted, merged ranges, announced in an ACK
 * frame as gaps and lengths, and expanded back into ranges by the peer.
 */
module Acks {
  import opened Common
  import opened Coding
  import opened Frames
  import FrameLaws

  datatype Range = Range(low: nat, high: nat)

  /** Two touching ranges as one. */
  function Joint(a: Range, b: Range): (r: Range) { Range(a.low, Max(a.high, b.high)) }

  /** Sorted ascending, with at least one missing number between neighbours. */
  predicate Canonical(rs: seq<Range>) {
    && (forall i :: 0 <= i < |rs| ==> rs[i].low <= rs[i].high)
    && (forall i, j :: 0 <= i < j < |rs| ==> rs[i].high + 1 < rs[j].low)
  }

  predicate InRange(rs: seq<Range>, i: nat, pn: nat) {
    i < |rs| && rs[i].low <= pn <= rs[i].high
  }

  ghost predicate Has(rs: seq<Range>, pn: nat) {
    exists i: nat :: InRange(rs, i, pn)
  }

  lemma HasCons(r: Range, rs: seq<Range>, pn: nat)
    ensures Has([r] + rs, pn) <==> r.low <= pn <= r.high || Has(rs, pn)
  {
    var all := [r] + rs;
    if r.low <= pn <= r.high {
      assert InRange(all, 0, pn);
    }
    if Has(rs, pn) {
      var i: nat :| InRange(rs, i, pn);
      assert InRange(all, i + 1, pn);
    }
    if Has(all, pn) {
      var i: nat :| InRange(all, i, pn);
      if i > 0 {
        assert InRange(rs, i - 1, pn);
      }
    }
  }

  // ------------------------------------------------------------------- inserting

  /** The ranges after receiving `pn`. */
  function InsertPn(rs: seq<Range>, pn: nat): (r: seq<Range>) { InsertFrom(rs, 0, pn) }

  /** The scan from range `i` on, when all earlier ranges end well below `pn`. */
  function InsertFrom(rs: seq<Range>, i: nat, pn: nat): (r: seq<Range>)
    requires i <= |rs|
    decreases |rs| - i
  {
    if i == |rs| then rs + [Range(pn, pn)]
    else if pn > rs[i].high + 1 then InsertFrom(rs, i + 1, pn)
    else
      var (r, tail) := Landing(rs, i, pn);
      rs[..i] + ([r] + tail)
  }

  /** The range that takes in `pn`, and the ranges above it. */
  function Landing(rs: seq<Range>, i: nat, pn: nat): (r: (Range, seq<Range>))
    requires i < |rs|
  {
    var Range(low, high) := rs[i];
    if low <= pn <= high then (rs[i], rs[i + 1..])
    else if pn + 1 == low then (Range(pn, high), rs[i + 1..])
    else if pn < low then (Range(pn, pn), rs[i..])
    else if i + 1 < |rs| && pn + 1 >= rs[i + 1].low then (Range(low, Max(pn, rs[i + 1].high)), rs[i + 2..])
    else (Range(low, pn), rs[i + 1..])
  }

  lemma InsertLast(rs: seq<Range>, pn: nat)
    ensures InsertFrom(rs, |rs|, pn) == rs + [Range(pn, pn)]
  {
  }

  /** What the scan does at range `i`, as an update of the list. */
  lemma InsertCases(rs: seq<Range>, i: nat, pn: nat)
    requires i < |rs| && rs[i].low <= rs[i].high
    ensures var Range(low, high) := rs[i];
            var r := InsertFrom(rs, i, pn);
            && (low <= pn <= high ==> r == rs)
            && (pn + 1 == low ==> r == rs[i := Range(pn, high)])
            && (pn == high + 1 ==>
                  if i + 1 < |rs| && pn + 1 >= rs[i + 1].low
                  then r == rs[..i] + [Range(low, Max(pn, rs[i + 1].high))] + rs[i + 2..]
                  else r == rs[i := Range(low, pn)])
            && (pn + 1 < low ==> r == rs[..i] + [Range(pn, pn)] + rs[i..])
            && (pn > high + 1 ==> r == InsertFrom(rs, i + 1, pn))
  {
    if pn <= rs[i].high + 1 {
      var (r, tail) := Landing(rs, i, pn);
      var landed := rs[..i] + ([r] + tail);
      assert InsertFrom(rs, i, pn) == landed;
      assert landed == rs[..i] + [r] + tail;
      assert forall q: Range :: rs[i := q] == rs[..i] + [q] + rs[i + 1..];
    }
  }

  /** Insertion keeps the ranges canonical and adds exactly the one number. */
  lemma InsertCorrect(rs: seq<Range>, pn: nat)
    requires Canonical(rs)
    ensures Canonical(InsertPn(rs, pn)) && InsertPn(rs, pn) != []
    ensures forall q: nat :: Has(InsertPn(rs, pn), q) <==> Has(rs, q) || q == pn
  {
    InsertFromCanonical(rs, 0, pn);
    forall q: nat
      ensures Has(InsertPn(rs, pn), q) <==> Has(rs, q) || q == pn
    {
      InsertFromHas(rs, 0, pn, q);
    }
  }

  lemma {:induction false} InsertFromCanonical(rs: seq<Range>, i: nat, pn: nat)
    requires Canonical(rs) && i <= |rs| && (i > 0 ==> pn > rs[i - 1].high + 1)
    ensures Canonical(InsertFrom(rs, i, pn)) && InsertFrom(rs, i, pn) != []
    decreases |rs| - i
  {
    if i == |rs| {
    } else if pn > rs[i].high + 1 {
      InsertFromCanonical(rs, i + 1, pn);
    } else {
      var (r, tail) := Landing(rs, i, pn);
      LandingCanonical(rs, i, pn);
      hide Canonical;
      Joined(rs[..i], r, tail);
    }
  }

  lemma LandingCanonical(rs: seq<Range>, i: nat, pn: nat)
    requires Canonical(rs) && i < |rs| && (i > 0 ==> pn > rs[i - 1].high + 1) && pn <= rs[i].high + 1
    ensures var (r, tail) := Landing(rs, i, pn);
            && Canonical(rs[..i]) && Canonical(tail) && r.low <= r.high
            && (i > 0 ==> rs[i - 1].high + 1 < r.low)
            && (tail != [] ==> r.high + 1 < tail[0].low)
  {
    hide Canonical;
    CanonicalSlice(rs, 0, i);
    CanonicalSlice(rs, i, |rs|);
    CanonicalSlice(rs, i + 1, |rs|);
    if i + 1 < |rs| {
      CanonicalSlice(rs, i + 2, |rs|);
    }
    Neighbours(rs, i);
    assert rs[0..i] == rs[..i] && rs[i..|rs|] == rs[i..] && rs[i + 1..|rs|] == rs[i + 1..];
    assert i + 1 < |rs| ==> rs[i + 2..|rs|] == rs[i + 2..];
  }

  lemma Neighbours(rs: seq<Range>, i: nat)
    requires Canonical(rs) && i < |rs|
    ensures rs[i].low <= rs[i].high && (i > 0 ==> rs[i - 1].high + 1 < rs[i].low)
    ensures i + 1 < |rs| ==> rs[i + 1].low <= rs[i + 1].high && rs[i].high + 1 < rs[i + 1].low
    ensures i + 2 < |rs| ==> rs[i + 1].high + 1 < rs[i + 2].low
  {
  }

  lemma CanonicalSlice(rs: seq<Range>, a: nat, b: nat)
    requires Canonical(rs) && a <= b <= |rs|
    ensures Canonical(rs[a..b])
  {
  }

  lemma Joined(front: seq<Range>, r: Range, tail: seq<Range>)
    requires Canonical(front) && Canonical(tail) && r.low <= r.high
    requires front != [] ==> front[|front| - 1].high + 1 < r.low
    requires tail != [] ==> r.high + 1 < tail[0].low
    ensures Canonical(front + ([r] + tail))
  {
  }

  lemma {:induction false} InsertFromHas(rs: seq<Range>, i: nat, pn: nat, q: nat)
    requires Canonical(rs) && i <= |rs|
    ensures Has(InsertFrom(rs, i, pn), q) <==> Has(rs, q) || q == pn
    decreases |rs| - i
  {
    if i == |rs| {
      HasSnoc(rs, Range(pn, pn), q);
    } else if pn > rs[i].high + 1 {
      InsertFromHas(rs, i + 1, pn, q);
    } else {
      var (r, tail) := Landing(rs, i, pn);
      HasSplit(rs[..i], r, tail, q);
      LandingHas(rs, i, pn, q);
    }
  }

  lemma LandingHas(rs: seq<Range>, i: nat, pn: nat, q: nat)
    requires Canonical(rs) && i < |rs| && pn <= rs[i].high + 1
    ensures var (r, tail) := Landing(rs, i, pn);
            Has(rs, q) || q == pn <==> Has(rs[..i], q) || r.low <= q <= r.high || Has(tail, q)
  {
    var above := rs[i + 1..];
    assert rs == rs[..i] + ([rs[i]] + above) && rs[i..] == [rs[i]] + above;
    HasSplit(rs[..i], rs[i], above, q);
    HasCons(rs[i], above, q);
    if above != [] {
      assert above == [above[0]] + above[1..] && above[1..] == rs[i + 2..];
      HasCons(above[0], above[1..], q);
    }
  }

  lemma HasSplit(front: seq<Range>, r: Range, tail: seq<Range>, q: nat)
    ensures Has(front + ([r] + tail), q) <==> Has(front, q) || r.low <= q <= r.high || Has(tail, q)
  {
    HasAppend(front, [r] + tail, q);
    HasCons(r, tail, q);
  }

  lemma HasAppend(a: seq<Range>, b: seq<Range>, q: nat)
    ensures Has(a + b, q) <==> Has(a, q) || Has(b, q)
  {
    if Has(a, q) {
      var i: nat :| InRange(a, i, q);
      assert InRange(a + b, i, q);
    }
    if Has(b, q) {
      var i: nat :| InRange(b, i, q);
      assert InRange(a + b, |a| + i, q);
    }
    if Has(a + b, q) {
      var i: nat :| InRange(a + b, i, q);
      if i < |a| {
        assert InRange(a, i, q);
      } else {
        assert InRange(b, i - |a|, q);
      }
    }
  }

  /** Canonical ranges are determined by the numbers they hold. */
  lemma {:induction false} CanonicalUnique(a: seq<Range>, b: seq<Range>)
    requires Canonical(a) && Canonical(b)
    requires forall q: nat :: Has(a, q) <==> Has(b, q)
    ensures a == b
  {
    assert a != [] ==> InRange(a, 0, a[0].low) && Has(a, a[0].low);
    assert b != [] ==> InRange(b, 0, b[0].low) && Has(b, b[0].low);
    if a != [] && b != [] {
      HeadFirst(a);
      HeadFirst(b);
      assert Has(a, a[0].low) && Has(b, b[0].low) && Has(a, a[0].high) && Has(b, b[0].high) by {
        assert InRange(a, 0, a[0].low) && InRange(b, 0, b[0].low);
        assert InRange(a, 0, a[0].high) && InRange(b, 0, b[0].high);
      }
      assert a[0].low == b[0].low;
      assert a[0].high == b[0].high by {
        assert !Has(a, a[0].high + 1) && !Has(b, b[0].high + 1);
        assert a[0].high < b[0].high ==> InRange(b, 0, a[0].high + 1);
        assert b[0].high < a[0].high ==> InRange(a, 0, b[0].high + 1);
      }
      assert [a[0]] + a[1..] == a && [b[0]] + b[1..] == b;
      forall q: nat
        ensures Has(a[1..], q) <==> Has(b[1..], q)
      {
        HasCons(a[0], a[1..], q);
        HasCons(b[0], b[1..], q);
        TailAbove(a, q);
        TailAbove(b, q);
      }
      CanonicalUnique(a[1..], b[1..]);
    }
  }

  lemma TailAbove(rs: seq<Range>, q: nat)
    requires Canonical(rs) && rs != []
    ensures Has(rs[1..], q) ==> q > rs[0].high + 1
  {
    if Has(rs[1..], q) {
      var i: nat :| InRange(rs[1..], i, q);
      assert rs[1..][i] == rs[i + 1];
    }
  }

  lemma HeadFirst(rs: seq<Range>)
    requires Canonical(rs) && rs != []
    ensures forall q: nat :: Has(rs, q) ==> q >= rs[0].low
    ensures !Has(rs, rs[0].high + 1)
  {
    assert [rs[0]] + rs[1..] == rs;
    forall q: nat | Has(rs, q)
      ensures q >= rs[0].low && q != rs[0].high + 1
    {
      HasCons(rs[0], rs[1..], q);
      TailAbove(rs, q);
    }
  }

  // -------------------------------------------------------------- ACK frame form

  /** The gap/length pairs for the lowest `n` ranges, walked downward from `prevLow`. */
  function GapPairs(rs: seq<Range>, n: nat, prevLow: nat): (r: seq<AckRange>)
    requires Canonical(rs) && n <= |rs| && (n > 0 ==> rs[n - 1].high + 2 <= prevLow)
    ensures |r| == n
  {
    if n == 0 then []
    else
      var top := rs[n - 1];
      [AckRange(prevLow - top.high - 2, top.high - top.low)] + GapPairs(rs, n - 1, top.low)
  }

  lemma GapPairsStep(rs: seq<Range>, n: nat, prevLow: nat, before: seq<AckRange>)
    requires Canonical(rs) && 0 < n <= |rs| && rs[n - 1].high + 2 <= prevLow
    ensures n > 1 ==> rs[n - 2].high + 2 <= rs[n - 1].low
    ensures var pair := AckRange(prevLow - rs[n - 1].high - 2, rs[n - 1].high - rs[n - 1].low);
            before + GapPairs(rs, n, prevLow) == before + [pair] + GapPairs(rs, n - 1, rs[n - 1].low)
  {
  }

  lemma GapPairsNone(rs: seq<Range>, prevLow: nat, before: seq<AckRange>)
    requires Canonical(rs)
    ensures before + GapPairs(rs, 0, prevLow) == before
  {
  }

  function ToAck(rs: seq<Range>, delay: nat): (r: Option<Frame>)
    requires Canonical(rs)
  {
    if rs == [] then None
    else
      var top := rs[|rs| - 1];
      Some(Ack(top.high, delay, top.high - top.low, GapPairs(rs, |rs| - 1, top.low)))
  }

  /** The ranges below `smallest` that the pairs announce; a pair that underflows ends them. */
  function ExpandPairs(smallest: nat, pairs: seq<AckRange>): (r: seq<Range>) {
    if pairs == [] || smallest < pairs[0].gap + 2 then []
    else
      var high := smallest - pairs[0].gap - 2;
      var low := SatSub(high, pairs[0].range);
      [Range(low, high)] + ExpandPairs(low, pairs[1..])
  }

  function ExpandAck(largest: nat, firstRange: nat, pairs: seq<AckRange>): (r: seq<Range>) {
    [Range(SatSub(largest, firstRange), largest)] + ExpandPairs(SatSub(largest, firstRange), pairs)
  }

  /** The lowest `n` ranges, highest first. */
  function Descending(rs: seq<Range>, n: nat): (r: seq<Range>)
    requires n <= |rs|
  {
    if n == 0 then [] else [rs[n - 1]] + Descending(rs, n - 1)
  }

  lemma {:induction false} ExpandGapPairs(rs: seq<Range>, n: nat, prevLow: nat)
    requires Canonical(rs) && n <= |rs| && (n > 0 ==> rs[n - 1].high + 2 <= prevLow)
    ensures ExpandPairs(prevLow, GapPairs(rs, n, prevLow)) == Descending(rs, n)
  {
    if n > 0 {
      ExpandGapPairs(rs, n - 1, rs[n - 1].low);
      assert GapPairs(rs, n, prevLow)[1..] == GapPairs(rs, n - 1, rs[n - 1].low);
    }
  }

  lemma {:induction false} DescendingTop(rs: seq<Range>)
    requires rs != []
    ensures Descending(rs, |rs|) == [rs[|rs| - 1]] + Descending(rs, |rs| - 1)
  {
  }

  /** The peer's expansion restores the ranges, largest first. */
  lemma {:induction false} ExpandToAck(rs: seq<Range>, delay: nat)
    requires Canonical(rs) && rs != []
    ensures var f := ToAck(rs, delay).value;
            ExpandAck(f.largest, f.firstRange, f.ranges) == Descending(rs, |rs|)
  {
    hide GapPairs, ExpandPairs, Canonical, Descending;
    var n := |rs| - 1;
    Neighbours(rs, n);
    ExpandGapPairs(rs, n, rs[n].low);
    DescendingTop(rs);
    assert SatSub(rs[n].high, rs[n].high - rs[n].low) == rs[n].low;
  }

  lemma {:induction false} DescendingHas(rs: seq<Range>, n: nat, pn: nat)
    requires n <= |rs|
    ensures Has(Descending(rs, n), pn) <==> Has(rs[..n], pn)
  {
    if n > 0 {
      DescendingHas(rs, n - 1, pn);
      HasCons(rs[n - 1], Descending(rs, n - 1), pn);
      HasSnoc(rs[..n - 1], rs[n - 1], pn);
      assert rs[..n - 1] + [rs[n - 1]] == rs[..n];
    }
  }

  lemma HasSnoc(rs: seq<Range>, r: Range, pn: nat)
    ensures Has(rs + [r], pn) <==> Has(rs, pn) || r.low <= pn <= r.high
  {
    var all := rs + [r];
    if r.low <= pn <= r.high {
      assert InRange(all, |rs|, pn);
    }
    if Has(rs, pn) {
      var i: nat :| InRange(rs, i, pn);
      assert InRange(all, i, pn);
    }
    if Has(all, pn) {
      var i: nat :| InRange(all, i, pn);
      if i < |rs| {
        assert InRange(rs, i, pn);
      }
    }
  }

  // --------------------------------------------------------------- the agreement

  function InsertAll(pns: seq<nat>): (rs: seq<Range>)
    ensures Canonical(rs) && (rs == [] <==> pns == [])
  {
    if pns == [] then []
    else
      var front := InsertAll(pns[..|pns| - 1]);
      InsertFromCanonical(front, 0, pns[|pns| - 1]);
      InsertPn(front, pns[|pns| - 1])
  }

  lemma {:induction false} InsertAllHas(pns: seq<nat>)
    ensures forall q: nat :: Has(InsertAll(pns), q) <==> q in pns
  {
    if pns != [] {
      var front, last := pns[..|pns| - 1], pns[|pns| - 1];
      InsertAllHas(front);
      InsertCorrect(InsertAll(front), last);
      assert pns == front + [last];
    }
  }

  lemma {:induction false} RangeCountBound(rs: seq<Range>)
    requires Canonical(rs) && rs != []
    ensures |rs| <= rs[|rs| - 1].high + 1
  {
    if |rs| > 1 {
      RangeCountBound(rs[..|rs| - 1]);
    }
  }

  lemma {:induction false} GapPairsFit(rs: seq<Range>, n: nat, prevLow: nat)
    requires Canonical(rs) && n <= |rs| && (n > 0 ==> rs[n - 1].high + 2 <= prevLow) && Fits(prevLow)
    ensures RangesFit(GapPairs(rs, n, prevLow))
  {
    if n > 0 {
      GapPairsFit(rs, n - 1, rs[n - 1].low);
    }
  }

  lemma AckWellFormed(rs: seq<Range>, delay: nat)
    requires Canonical(rs) && rs != [] && Fits(rs[|rs| - 1].high) && Fits(delay)
    ensures WellFormed(ToAck(rs, delay).value)
  {
    RangeCountBound(rs);
    GapPairsFit(rs, |rs| - 1, rs[|rs| - 1].low);
  }

  /**
   * For any packet numbers received in any order, with repetitions: the ACK frame, sent
   * over the wire and expanded by the peer, names exactly the numbers received.
   */
  lemma AckAgreement(pns: seq<nat>, delay: nat, rest: seq<byte>)
    requires pns != [] && Fits(delay) && forall i :: 0 <= i < |pns| ==> Fits(pns[i])
    ensures var f := ToAck(InsertAll(pns), delay).value;
            && DecodeFrame(Encode(f) + rest) == Done(f, rest)
            && forall q: nat :: Has(ExpandAck(f.largest, f.firstRange, f.ranges), q) <==> q in pns
  {
    hide DecodeFrame, Encode, WellFormed, InsertAll;
    InsertAllHas(pns);
    var rs := InsertAll(pns);
    TopHas(rs);
    AckWellFormed(rs, delay);
    FrameLaws.RoundTrip(ToAck(rs, delay).value, rest);
    AckDenotes(rs, delay);
  }

  /** Its other fields: the greatest number received, and the delay as it was handed in. */
  lemma AckFields(pns: seq<nat>, delay: nat)
    requires pns != []
    ensures var f := ToAck(InsertAll(pns), delay).value;
            f.delay == delay && f.largest in pns && forall q :: q in pns ==> q <= f.largest
  {
    hide InsertAll, GapPairs;
    InsertAllHas(pns);
    var rs := InsertAll(pns);
    TopHas(rs);
    forall q | q in pns
      ensures q <= rs[|rs| - 1].high
    {
      TopBounds(rs, q);
    }
  }

  lemma TopBounds(rs: seq<Range>, q: nat)
    requires Canonical(rs) && Has(rs, q)
    ensures rs != [] && q <= rs[|rs| - 1].high
  {
    var i: nat :| InRange(rs, i, q);
    assert i < |rs| - 1 ==> rs[i].high + 1 < rs[|rs| - 1].low;
  }

  /** What the pair in front of range `i` says, and the range below which it counts. */
  predicate Follows(r: Range, below: nat, pair: AckRange) {
    r.high + pair.gap + 2 == below && r.low == SatSub(r.high, pair.range)
  }

  function LowBefore(smallest: nat, r: seq<Range>, i: nat): (low: nat)
    requires i <= |r|
  {
    if i == 0 then smallest else r[i - 1].low
  }

  lemma {:induction false} ExpandPairsExact(smallest: nat, pairs: seq<AckRange>)
    ensures var r := ExpandPairs(smallest, pairs);
            && |r| <= |pairs|
            && (forall i :: 0 <= i < |r| ==> Follows(r[i], LowBefore(smallest, r, i), pairs[i]))
            && (|r| < |pairs| ==> LowBefore(smallest, r, |r|) < pairs[|r|].gap + 2)
  {
    if pairs != [] && smallest >= pairs[0].gap + 2 {
      var high := smallest - pairs[0].gap - 2;
      var low := SatSub(high, pairs[0].range);
      ExpandPairsExact(low, pairs[1..]);
      var tail, r := ExpandPairs(low, pairs[1..]), ExpandPairs(smallest, pairs);
      assert r == [Range(low, high)] + tail;
      forall i | 0 <= i < |r|
        ensures Follows(r[i], LowBefore(smallest, r, i), pairs[i])
      {
        if i > 0 {
          assert Follows(tail[i - 1], LowBefore(low, tail, i - 1), pairs[1..][i - 1]);
          assert LowBefore(low, tail, i - 1) == r[i - 1].low;
        }
      }
      assert LowBefore(low, tail, |tail|) == r[|r| - 1].low;
    }
  }

  /**
   * Any ACK frame, also one no receiver would build: the first range ends at the largest
   * number, every further one lies a gap below the one before it, and the first pair whose
   * gap reaches below zero ends the list. No range starts below zero.
   */
  lemma ExpandExact(largest: nat, firstRange: nat, pairs: seq<AckRange>)
    ensures var r := ExpandAck(largest, firstRange, pairs);
            && 1 <= |r| <= |pairs| + 1 && r[0] == Range(SatSub(largest, firstRange), largest)
            && (forall i :: 1 <= i < |r| ==> Follows(r[i], r[i - 1].low, pairs[i - 1]))
            && (|r| <= |pairs| ==> r[|r| - 1].low < pairs[|r| - 1].gap + 2)
  {
    var smallest: nat := SatSub(largest, firstRange);
    ExpandPairsExact(smallest, pairs);
    var tail, r := ExpandPairs(smallest, pairs), ExpandAck(largest, firstRange, pairs);
    assert r == [Range(smallest, largest)] + tail;
    forall i | 1 <= i < |r|
      ensures Follows(r[i], r[i - 1].low, pairs[i - 1])
    {
      assert Follows(tail[i - 1], LowBefore(smallest, tail, i - 1), pairs[i - 1]);
      assert LowBefore(smallest, tail, i - 1) == r[i - 1].low;
    }
  }

  lemma TopHas(rs: seq<Range>)
    requires Canonical(rs) && rs != []
    ensures Has(rs, rs[|rs| - 1].high)
  {
    assert InRange(rs, |rs| - 1, rs[|rs| - 1].high);
  }

  lemma AckDenotes(rs: seq<Range>, delay: nat)
    requires Canonical(rs) && rs != []
    ensures var f := ToAck(rs, delay).value;
            forall q: nat :: Has(ExpandAck(f.largest, f.firstRange, f.ranges), q) <==> Has(rs, q)
  {
    ExpandToAck(rs, delay);
    forall q: nat
      ensures Has(Descending(rs, |rs|), q) <==> Has(rs, q)
    {
      DescendingHas(rs, |rs|, q);
      assert rs[..|rs|] == rs;
    }
  }

  // ----------------------------------------------------------- the mutable record

  class ReceivedPackets {
    var ranges: seq<Range>

    ghost predicate Valid()
      reads this
    {
      Canonical(ranges)
    }

    constructor ()
      ensures Valid() && ranges == []
    {
      ranges := [];
    }

    method Insert(pn: nat)
      requires Valid()
      modifies this
      ensures Valid() && ranges == InsertPn(old(ranges), pn)
    {
      InsertFromCanonical(ranges, 0, pn);
      hide InsertFrom, Landing;
      for i := 0 to |ranges|
        invariant ranges == old(ranges)
        invariant InsertPn(ranges, pn) == InsertFrom(ranges, i, pn)
        invariant i > 0 ==> pn > ranges[i - 1].high + 1
      {
        InsertCases(ranges, i, pn);
        var Range(low, high) := ranges[i];
        if low <= pn <= high {
          return;
        }
        if pn + 1 == low {
          ranges := ranges[i := Range(pn, high)];
          MaybeMergePrev(i);
          return;
        }
        if pn == high + 1 {
          ranges := ranges[i := Range(low, pn)];
          MaybeMergeNext(i);
          return;
        }
        if pn < low {
          ranges := ranges[..i] + [Range(pn, pn)] + ranges[i..];
          return;
        }
      }
      InsertLast(ranges, pn);
      ranges := ranges + [Range(pn, pn)];
    }

    method MaybeMergePrev(i: nat)
      requires i < |ranges|
      modifies this
      ensures if i > 0 && old(ranges[i - 1].high + 1 >= ranges[i].low)
              then ranges == old(ranges[..i - 1] + [Joint(ranges[i - 1], ranges[i])] + ranges[i + 1..])
              else ranges == old(ranges)
    {
      if i == 0 {
        return;
      }
      if ranges[i - 1].high + 1 >= ranges[i].low {
        ranges := ranges[i - 1 := Range(ranges[i - 1].low, Max(ranges[i - 1].high, ranges[i].high))];
        ranges := ranges[..i] + ranges[i + 1..];
      }
    }

    method MaybeMergeNext(i: nat)
      requires i < |ranges|
      modifies this
      ensures if i + 1 < |old(ranges)| && old(ranges[i].high + 1 >= ranges[i + 1].low)
              then ranges == old(ranges[..i] + [Joint(ranges[i], ranges[i + 1])] + ranges[i + 2..])
              else ranges == old(ranges)
    {
      if i + 1 >= |ranges| {
        return;
      }
      if ranges[i].high + 1 >= ranges[i + 1].low {
        ranges := ranges[i := Range(ranges[i].low, Max(ranges[i].high, ranges[i + 1].high))];
        ranges := ranges[..i + 1] + ranges[i + 2..];
      }
    }

    method ToAckFrame(delay: nat) returns (f: Option<Frame>)
      requires Valid()
      ensures f == ToAck(ranges, delay)
    {
      if |ranges| == 0 {
        return None;
      }
      hide GapPairs;
      var top := ranges[|ranges| - 1];
      var pairs := Pairs(|ranges| - 1, top.low);
      f := Some(Ack(top.high, delay, top.high - top.low, pairs));
    }

    /** Walks the ranges from the highest down; no gap subtraction can go below zero. */
    method Pairs(n: nat, prevLow: nat) returns (pairs: seq<AckRange>)
      requires Valid() && n <= |ranges| && (n > 0 ==> ranges[n - 1].high + 2 <= prevLow)
      ensures pairs == GapPairs(ranges, n, prevLow)
    {
      hide GapPairs;
      ghost var rs := ranges;
      pairs := [];
      var low: nat := prevLow;
      var i := n;
      assert pairs + GapPairs(rs, i, low) == GapPairs(rs, i, low);
      while i > 0
        invariant 0 <= i <= n && (i > 0 ==> rs[i - 1].high + 2 <= low)
        invariant pairs + GapPairs(rs, i, low) == GapPairs(rs, n, prevLow)
      {
        GapPairsStep(rs, i, low, pairs);
        var r := ranges[i - 1];
        var gap := low - r.high - 2;
        pairs := pairs + [AckRange(gap, r.high - r.low)];
        low := r.low;
        i := i - 1;
      }
      GapPairsNone(rs, low, pairs);
    }
  }

  /** Send counter and acknowledgement state of one space. */
  class PacketSpace {
    var nextPacketNumber: nat
    var largestAcked: Option<nat>
    const received: ReceivedPackets
    var ackPending: bool

    ghost predicate Valid()
      reads this, received
    {
      received.Valid() && (ackPending ==> received.ranges != [])
    }

    constructor ()
      ensures Valid() && fresh(received)
      ensures nextPacketNumber == 0 && largestAcked == None && received.ranges == [] && !ackPending
    {
      nextPacketNumber, largestAcked, ackPending := 0, None, false;
      received := new ReceivedPackets();
    }

    method NextPn() returns (pn: nat)
      modifies `nextPacketNumber
      ensures pn == old(nextPacketNumber) && nextPacketNumber == pn + 1
    {
      pn := nextPacketNumber;
      nextPacketNumber := nextPacketNumber + 1;
    }

    method OnAckReceived(largest: nat)
      modifies `largestAcked
      ensures largestAcked == Some(MaxOpt(old(largestAcked), largest))
    {
      largestAcked := Some(MaxOpt(largestAcked, largest));
    }

    method OnPacketReceived(pn: nat, ackEliciting: bool)
      requires Valid()
      modifies `ackPending, received
      ensures Valid() && received.ranges == InsertPn(old(received.ranges), pn)
      ensures forall q: nat :: Has(received.ranges, q) <==> old(Has(received.ranges, q)) || q == pn
      ensures ackPending == (old(ackPending) || ackEliciting)
    {
      InsertCorrect(received.ranges, pn);
      received.Insert(pn);
      if ackEliciting {
        ackPending := true;
      }
    }

    /** An ACK is produced exactly when one is owed, and is then no longer owed. */
    method BuildAck(delay: nat) returns (f: Option<Frame>)
      requires Valid()
      modifies `ackPending
      ensures Valid() && !ackPending
      ensures f.Some? <==> old(ackPending)
      ensures f.Some? ==> f == ToAck(received.ranges, delay)
    {
      if !ackPending {
        return None;
      }
      f := received.ToAckFrame(delay);
      ackPending := false;
    }
  }
}
