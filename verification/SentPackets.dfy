/**
 * The record of sent packets that are neither acknowledged nor lost (section 3 and
 * Appendix A.1 of RFC 9002), with acknowledgement processing and loss detection.
 * Instants and durations are counts of nanoseconds.
 */
module SentPackets {
  import opened Common
  import opened Frames
  import opened Acks

  /** A retransmittable frame as remembered by the sender. */
  datatype SentFrame =
    | SentCrypto(offset: nat, data: seq<byte>)
    | SentStream(id: nat, offset: nat, fin: bool, data: seq<byte>)
    | SentPing
    | SentMtuProbe(size: nat)
    | SentNewConnectionId(number: nat, retirePriorTo: nat, cid: seq<byte>, token: seq<byte>)
    | SentRetireConnectionId(number: nat)
    | SentMaxStreams(dir: Direction, max: nat)
    | SentStreamsBlocked(dir: Direction, limit: nat)
    | SentNewToken(token: seq<byte>)

  datatype SentPacket = SentPacket(
    number: nat, timeSent: nat, ackEliciting: bool, inFlight: bool, size: nat, frames: seq<SentFrame>)

  type Store = map<nat, SentPacket>

  datatype SentState = SentState(sent: Store, largestAcked: Option<nat>)

  datatype AckOutcome = AckOutcome(newlyAcked: seq<SentPacket>, ackedAckEliciting: bool, largestNewlyAcked: Option<nat>)

  /** Every record is filed under its own packet number. */
  ghost predicate Keyed(sent: Store) {
    forall pn :: pn in sent ==> sent[pn].number == pn
  }

  // ------------------------------------------------------------ taking records out

  /** The recorded numbers in `low..end`, ascending. */
  function KeysIn(sent: Store, low: nat, end: nat): (keys: seq<nat>)
    ensures forall pn :: pn in keys <==> low <= pn < end && pn in sent
    ensures forall i, j :: 0 <= i < j < |keys| ==> keys[i] < keys[j]
  {
    if end <= low then []
    else
      var front := KeysIn(sent, low, end - 1);
      assert forall i :: 0 <= i < |front| ==> front[i] in front;
      front + if end - 1 in sent then [end - 1] else []
  }

  /** Removes the listed records and returns them in that order. */
  function TakeKeys(sent: Store, keys: seq<nat>): (r: (Store, seq<SentPacket>)) {
    if keys == [] then (sent, [])
    else
      var (before, out) := TakeKeys(sent, keys[..|keys| - 1]);
      var pn := keys[|keys| - 1];
      if pn in before then (before - {pn}, out + [before[pn]]) else (before, out)
  }

  function TakeRanges(sent: Store, ranges: seq<Range>): (r: (Store, seq<SentPacket>)) {
    if ranges == [] then (sent, [])
    else
      var (before, out) := TakeRanges(sent, ranges[..|ranges| - 1]);
      var r := ranges[|ranges| - 1];
      var (after, more) := TakeKeys(before, KeysIn(before, r.low, r.high + 1));
      (after, out + more)
  }

  /** `out` lists exactly the records that `after` lacks, each once. */
  ghost predicate Moved(sent: Store, after: Store, out: seq<SentPacket>) {
    && (forall pn :: pn in after ==> pn in sent && after[pn] == sent[pn])
    && (forall i :: 0 <= i < |out| ==>
          out[i].number in sent && out[i].number !in after && sent[out[i].number] == out[i])
    && (forall pn :: pn in sent && pn !in after ==> sent[pn] in out)
    && (forall i, j :: 0 <= i < j < |out| ==> out[i].number != out[j].number)
  }

  lemma {:induction false} TakeKeysExact(sent: Store, keys: seq<nat>)
    requires Keyed(sent)
    ensures var (after, out) := TakeKeys(sent, keys);
            && Moved(sent, after, out) && Keyed(after)
            && forall pn :: pn in after <==> pn in sent && pn !in keys
  {
    if keys != [] {
      var front, pn := keys[..|keys| - 1], keys[|keys| - 1];
      TakeKeysExact(sent, front);
      assert keys == front + [pn];
      var (before, out) := TakeKeys(sent, front);
      if pn in before {
        MovedOne(sent, before, out, pn);
      }
    }
  }

  lemma TakeKeysSnoc(sent: Store, keys: seq<nat>, pn: nat)
    requires pn in TakeKeys(sent, keys).0
    ensures var (before, out) := TakeKeys(sent, keys);
            TakeKeys(sent, keys + [pn]) == (before - {pn}, out + [before[pn]])
  {
    assert (keys + [pn])[..|keys|] == keys;
  }

  lemma {:induction false} TakeKeysRemaining(sent: Store, keys: seq<nat>, pn: nat)
    requires pn in sent && pn !in keys
    ensures pn in TakeKeys(sent, keys).0 && TakeKeys(sent, keys).0[pn] == sent[pn]
  {
    if keys != [] {
      TakeKeysRemaining(sent, keys[..|keys| - 1], pn);
      assert keys[|keys| - 1] in keys;
    }
  }

  lemma MovedOne(sent: Store, before: Store, out: seq<SentPacket>, pn: nat)
    requires Keyed(sent) && Moved(sent, before, out) && pn in before
    ensures Moved(sent, before - {pn}, out + [before[pn]])
  {
    var after, more := before - {pn}, out + [before[pn]];
    forall q | q in sent && q !in after
      ensures sent[q] in more
    {
      if q == pn {
        assert more[|out|] == sent[q];
      } else {
        var i :| 0 <= i < |out| && out[i] == sent[q];
        assert more[i] == sent[q];
      }
    }
  }

  lemma MovedTrans(sent: Store, mid: Store, after: Store, out: seq<SentPacket>, more: seq<SentPacket>)
    requires Moved(sent, mid, out) && Moved(mid, after, more)
    ensures Moved(sent, after, out + more)
  {
    forall q | q in sent && q !in after
      ensures sent[q] in out + more
    {
      if q in mid {
        assert sent[q] in more;
      } else {
        assert sent[q] in out;
      }
    }
  }

  lemma {:induction false} TakeRangesExact(sent: Store, ranges: seq<Range>)
    requires Keyed(sent)
    ensures var (after, out) := TakeRanges(sent, ranges);
            && Moved(sent, after, out) && Keyed(after)
            && forall pn: nat :: pn in after <==> pn in sent && !Has(ranges, pn)
  {
    if ranges != [] {
      var front, r := ranges[..|ranges| - 1], ranges[|ranges| - 1];
      TakeRangesExact(sent, front);
      var (before, out) := TakeRanges(sent, front);
      var keys := KeysIn(before, r.low, r.high + 1);
      TakeKeysExact(before, keys);
      var (after, more) := TakeKeys(before, keys);
      MovedTrans(sent, before, after, out, more);
      forall pn: nat
        ensures pn in after <==> pn in sent && !Has(ranges, pn)
      {
        HasSnoc(front, r, pn);
        assert front + [r] == ranges;
      }
    }
  }

  // ----------------------------------------------------------------- acknowledging

  function LargestNumber(packets: seq<SentPacket>): (r: Option<nat>) {
    if packets == [] then None
    else Some(MaxOpt(LargestNumber(packets[..|packets| - 1]), packets[|packets| - 1].number))
  }

  predicate AnyAckEliciting(packets: seq<SentPacket>) {
    exists i :: 0 <= i < |packets| && packets[i].ackEliciting
  }

  function ApplyAck(s: SentState, largest: nat, firstRange: nat, pairs: seq<AckRange>): (r: (SentState, AckOutcome)) {
    var (after, newly) := TakeRanges(s.sent, ExpandAck(largest, firstRange, pairs));
    (SentState(after, Some(MaxOpt(s.largestAcked, largest))),
     AckOutcome(newly, AnyAckEliciting(newly), LargestNumber(newly)))
  }

  /**
   * An ACK removes exactly the outstanding packets it names and reports each once; a late one
   * does not lower the largest number acknowledged.
   */
  lemma OnAckExact(s: SentState, largest: nat, firstRange: nat, pairs: seq<AckRange>)
    requires Keyed(s.sent)
    ensures var (s', outcome) := ApplyAck(s, largest, firstRange, pairs);
            var named := ExpandAck(largest, firstRange, pairs);
            && Keyed(s'.sent) && Moved(s.sent, s'.sent, outcome.newlyAcked)
            && (forall pn: nat :: pn in s'.sent <==> pn in s.sent && !Has(named, pn))
            && (s'.largestAcked == s.largestAcked || s'.largestAcked == Some(largest))
            && s'.largestAcked.Some? && s'.largestAcked.value >= largest
            && (s.largestAcked.Some? ==> s'.largestAcked.value >= s.largestAcked.value)
  {
    TakeRangesExact(s.sent, ExpandAck(largest, firstRange, pairs));
  }

  /** What an ACK reports: the greatest number it settled, and whether one was ack-eliciting. */
  lemma AckSummary(s: SentState, largest: nat, firstRange: nat, pairs: seq<AckRange>)
    ensures var outcome := ApplyAck(s, largest, firstRange, pairs).1;
            && (outcome.largestNewlyAcked.None? <==> outcome.newlyAcked == [])
            && (outcome.largestNewlyAcked.Some? ==>
                  && (exists p :: p in outcome.newlyAcked && p.number == outcome.largestNewlyAcked.value)
                  && (forall p :: p in outcome.newlyAcked ==> p.number <= outcome.largestNewlyAcked.value))
            && (outcome.ackedAckEliciting <==> exists p :: p in outcome.newlyAcked && p.ackEliciting)
  {
    LargestNumberIs(ApplyAck(s, largest, firstRange, pairs).1.newlyAcked);
  }

  lemma {:induction false} LargestNumberIs(packets: seq<SentPacket>)
    ensures LargestNumber(packets).None? <==> packets == []
    ensures LargestNumber(packets).Some? ==>
              && (exists p :: p in packets && p.number == LargestNumber(packets).value)
              && (forall p :: p in packets ==> p.number <= LargestNumber(packets).value)
  {
    if packets != [] {
      var front, last := packets[..|packets| - 1], packets[|packets| - 1];
      assert packets == front + [last];
      LargestNumberIs(front);
      assert last in packets;
    }
  }

  /** The fields of a received ACK that the sender acts on. */
  datatype ReceivedAck = ReceivedAck(largest: nat, firstRange: nat, pairs: seq<AckRange>)

  function ApplyAcks(s: SentState, acks: seq<ReceivedAck>): (r: SentState) {
    if acks == [] then s
    else
      var last := acks[|acks| - 1];
      ApplyAck(ApplyAcks(s, acks[..|acks| - 1]), last.largest, last.firstRange, last.pairs).0
  }

  /** `r` is the greatest of the largest numbers the ACKs name, None if there are none. */
  ghost predicate IsLargest(r: Option<nat>, acks: seq<ReceivedAck>) {
    match r
    case None => acks == []
    case Some(n) => (exists i :: 0 <= i < |acks| && acks[i].largest == n)
                    && forall i :: 0 <= i < |acks| ==> acks[i].largest <= n
  }

  lemma IsLargestMore(r: Option<nat>, acks: seq<ReceivedAck>, last: ReceivedAck)
    requires IsLargest(r, acks)
    ensures IsLargest(Some(MaxOpt(r, last.largest)), acks + [last])
  {
    var all := acks + [last];
    assert all[|acks|] == last && forall i :: 0 <= i < |acks| ==> all[i] == acks[i];
    if r.Some? {
      var i :| 0 <= i < |acks| && acks[i].largest == r.value;
      assert all[i].largest == r.value;
    }
  }

  lemma LargestKept(s: SentState, ack: ReceivedAck)
    ensures ApplyAck(s, ack.largest, ack.firstRange, ack.pairs).0.largestAcked
         == Some(MaxOpt(s.largestAcked, ack.largest))
  {
    hide TakeRanges, ExpandAck;
  }

  /** After any ACKs, late and repeated ones too, the largest number acknowledged is remembered. */
  lemma {:induction false} LargestAckedIs(sent: Store, acks: seq<ReceivedAck>)
    ensures IsLargest(ApplyAcks(SentState(sent, None), acks).largestAcked, acks)
  {
    hide ApplyAck, IsLargest;
    if acks == [] {
      assert IsLargest(None, acks) by { NoLargest(); }
    } else {
      var front, last := acks[..|acks| - 1], acks[|acks| - 1];
      assert acks == front + [last];
      LargestAckedIs(sent, front);
      var before := ApplyAcks(SentState(sent, None), front);
      LargestKept(before, last);
      IsLargestMore(before.largestAcked, front, last);
    }
  }

  lemma NoLargest()
    ensures IsLargest(None, [])
  {
  }

  /** End to end: an ACK built from what the peer received removes exactly those packets. */
  lemma AckRemovesReceived(s: SentState, pns: seq<nat>, delay: nat)
    requires Keyed(s.sent) && pns != []
    ensures var f := ToAck(InsertAll(pns), delay).value;
            forall pn: nat :: pn in ApplyAck(s, f.largest, f.firstRange, f.ranges).0.sent
                         <==> pn in s.sent && pn !in pns
  {
    hide TakeRanges;
    var rs := InsertAll(pns);
    InsertAllHas(pns);
    AckDenotes(rs, delay);
    var f := ToAck(rs, delay).value;
    OnAckExact(s, f.largest, f.firstRange, f.ranges);
  }

  // ----------------------------------------------------------------- loss detection

  const PACKET_THRESHOLD: nat := 3

  predicate TimeLost(p: SentPacket, now: nat, delay: nat) {
    delay <= now && p.timeSent <= now - delay
  }

  /** The two loss tests of section 6.1 of RFC 9002. */
  predicate IsLost(sent: Store, pn: nat, largestAcked: nat, now: nat, delay: nat)
    requires pn in sent
  {
    largestAcked >= pn + PACKET_THRESHOLD || TimeLost(sent[pn], now, delay)
  }

  function LostKeys(sent: Store, keys: seq<nat>, largestAcked: nat, now: nat, delay: nat): (r: seq<nat>)
    requires forall pn :: pn in keys ==> pn in sent
    ensures forall pn :: pn in r <==> pn in keys && IsLost(sent, pn, largestAcked, now, delay)
  {
    if keys == [] then []
    else
      var front, pn := keys[..|keys| - 1], keys[|keys| - 1];
      assert keys == front + [pn];
      LostKeys(sent, front, largestAcked, now, delay)
      + if IsLost(sent, pn, largestAcked, now, delay) then [pn] else []
  }

  function MinOpt(prev: Option<nat>, x: nat): (m: nat) {
    match prev case None => x case Some(p) => Min(p, x)
  }

  /** The earliest time threshold among the candidates that survive. */
  function NextLossTime(sent: Store, keys: seq<nat>, largestAcked: nat, now: nat, delay: nat): (r: Option<nat>)
    requires forall pn :: pn in keys ==> pn in sent
  {
    if keys == [] then None
    else
      var front, pn := keys[..|keys| - 1], keys[|keys| - 1];
      assert keys == front + [pn];
      var prev := NextLossTime(sent, front, largestAcked, now, delay);
      if IsLost(sent, pn, largestAcked, now, delay) then prev
      else Some(MinOpt(prev, sent[pn].timeSent + delay))
  }

  lemma LostStart(sent: Store, largest: nat, now: nat, delay: nat)
    ensures LostKeys(sent, [], largest, now, delay) == [] && TakeKeys(sent, []) == (sent, [])
    ensures NextLossTime(sent, [], largest, now, delay) == None
  {
  }

  lemma LostStep(sent: Store, keys: seq<nat>, pn: nat, largest: nat, now: nat, delay: nat)
    requires pn in sent && forall q :: q in keys ==> q in sent
    ensures forall q :: q in keys + [pn] ==> q in sent
    ensures LostKeys(sent, keys + [pn], largest, now, delay)
         == LostKeys(sent, keys, largest, now, delay) + if IsLost(sent, pn, largest, now, delay) then [pn] else []
    ensures NextLossTime(sent, keys + [pn], largest, now, delay)
         == var prev := NextLossTime(sent, keys, largest, now, delay);
            if IsLost(sent, pn, largest, now, delay) then prev else Some(MinOpt(prev, sent[pn].timeSent + delay))
  {
    assert (keys + [pn])[..|keys|] == keys;
  }

  lemma NotYet(keys: seq<nat>, i: nat)
    requires i < |keys| && forall j, k :: 0 <= j < k < |keys| ==> keys[j] < keys[k]
    ensures keys[i] in keys && keys[i] !in keys[..i] && keys[..i + 1] == keys[..i] + [keys[i]]
  {
  }

  function FindLost(s: SentState, now: nat, delay: nat): (r: (SentState, seq<SentPacket>, Option<nat>)) {
    match s.largestAcked
    case None => (s, [], None)
    case Some(largest) =>
      var keys := KeysIn(s.sent, 0, largest + 1);
      var (after, lost) := TakeKeys(s.sent, LostKeys(s.sent, keys, largest, now, delay));
      (s.(sent := after), lost, NextLossTime(s.sent, keys, largest, now, delay))
  }

  /** Recorded, not above the largest acknowledged number, and past a threshold. */
  predicate Doomed(s: SentState, pn: nat, now: nat, delay: nat) {
    && pn in s.sent && s.largestAcked.Some? && pn <= s.largestAcked.value
    && IsLost(s.sent, pn, s.largestAcked.value, now, delay)
  }

  /**
   * A packet is lost exactly when one sent after it, or it, was acknowledged, and it is three
   * numbers behind the largest of these or was sent `delay` ago or earlier.
   */
  lemma LossThresholds(s: SentState, pn: nat, now: nat, delay: nat)
    requires pn in s.sent
    ensures Doomed(s, pn, now, delay)
       <==> && s.largestAcked.Some? && pn <= s.largestAcked.value
            && (pn + 3 <= s.largestAcked.value || s.sent[pn].timeSent + delay <= now)
  {
  }

  /** Loss detection splits the store precisely by the two thresholds. */
  lemma DetectLostExact(s: SentState, now: nat, delay: nat)
    requires Keyed(s.sent)
    ensures var (s', lost, next) := FindLost(s, now, delay);
            && Moved(s.sent, s'.sent, lost) && Keyed(s'.sent) && s'.largestAcked == s.largestAcked
            && forall pn: nat :: pn in s'.sent <==> pn in s.sent && !Doomed(s, pn, now, delay)
  {
    if s.largestAcked.Some? {
      var largest := s.largestAcked.value;
      var keys := KeysIn(s.sent, 0, largest + 1);
      TakeKeysExact(s.sent, LostKeys(s.sent, keys, largest, now, delay));
    }
  }

  predicate AscendingKeys(keys: seq<nat>) { forall i, j :: 0 <= i < j < |keys| ==> keys[i] < keys[j] }

  predicate AscendingNumbers(packets: seq<SentPacket>) {
    forall i, j :: 0 <= i < j < |packets| ==> packets[i].number < packets[j].number
  }

  lemma {:induction false} TakeKeysAscending(sent: Store, keys: seq<nat>)
    requires Keyed(sent) && AscendingKeys(keys)
    ensures var out := TakeKeys(sent, keys).1;
            AscendingNumbers(out) && forall i :: 0 <= i < |out| ==> out[i].number in keys
  {
    if keys != [] {
      var front, pn := keys[..|keys| - 1], keys[|keys| - 1];
      TakeKeysAscending(sent, front);
      TakeKeysExact(sent, front);
      assert keys == front + [pn] && forall k :: k in front ==> k < pn;
    }
  }

  lemma AscendingSnoc(keys: seq<nat>, pn: nat)
    requires AscendingKeys(keys) && forall k :: k in keys ==> k < pn
    ensures AscendingKeys(keys + [pn])
  {
    assert forall i :: 0 <= i < |keys| ==> keys[i] in keys;
  }

  lemma {:induction false} LostKeysAscending(sent: Store, keys: seq<nat>, largest: nat, now: nat, delay: nat)
    requires AscendingKeys(keys) && forall pn :: pn in keys ==> pn in sent
    ensures AscendingKeys(LostKeys(sent, keys, largest, now, delay))
  {
    hide IsLost;
    if keys != [] {
      var front, pn := keys[..|keys| - 1], keys[|keys| - 1];
      assert keys == front + [pn] && AscendingKeys(front) && forall k :: k in front ==> k < pn;
      hide AscendingKeys;
      LostKeysAscending(sent, front, largest, now, delay);
      AscendingSnoc(LostKeys(sent, front, largest, now, delay), pn);
      assert LostKeys(sent, front, largest, now, delay) + [] == LostKeys(sent, front, largest, now, delay);
    }
  }

  /** Lost packets are listed in the order in which they were sent. */
  lemma LostInOrder(s: SentState, now: nat, delay: nat)
    requires Keyed(s.sent)
    ensures AscendingNumbers(FindLost(s, now, delay).1)
  {
    if s.largestAcked.Some? {
      var largest := s.largestAcked.value;
      var keys := KeysIn(s.sent, 0, largest + 1);
      LostKeysAscending(s.sent, keys, largest, now, delay);
      TakeKeysAscending(s.sent, LostKeys(s.sent, keys, largest, now, delay));
    }
  }

  lemma {:induction false} NextLossTimeIsMinimum(sent: Store, keys: seq<nat>, largest: nat, now: nat, delay: nat)
    requires forall pn :: pn in keys ==> pn in sent
    ensures var next := NextLossTime(sent, keys, largest, now, delay);
            && (next.None? <==> forall pn :: pn in keys ==> IsLost(sent, pn, largest, now, delay))
            && (next.Some? ==>
                  && (exists pn :: pn in keys && !IsLost(sent, pn, largest, now, delay)
                                   && sent[pn].timeSent + delay == next.value)
                  && (forall pn :: pn in keys && !IsLost(sent, pn, largest, now, delay)
                                   ==> next.value <= sent[pn].timeSent + delay))
  {
    if keys != [] {
      var front, pn := keys[..|keys| - 1], keys[|keys| - 1];
      assert keys == front + [pn];
      NextLossTimeIsMinimum(sent, front, largest, now, delay);
    }
  }

  /**
   * The timer makes progress: it is due strictly after now, it is the earliest time any
   * survivor can be timed out, and firing it with the same delay retires a packet.
   */
  lemma LossTimerProgress(s: SentState, now: nat, delay: nat)
    requires Keyed(s.sent)
    requires FindLost(s, now, delay).2.Some?
    ensures var (s', _, next) := FindLost(s, now, delay);
            && next.value > now
            && (forall pn: nat :: pn in s'.sent && pn <= s.largestAcked.value
                                  ==> next.value <= s'.sent[pn].timeSent + delay)
            && exists pn: nat :: pn in s'.sent && Doomed(s', pn, next.value, delay)
  {
    var (s', _, next) := FindLost(s, now, delay);
    DetectLostExact(s, now, delay);
    var largest := s.largestAcked.value;
    var keys := KeysIn(s.sent, 0, largest + 1);
    NextLossTimeIsMinimum(s.sent, keys, largest, now, delay);
    var pn :| pn in keys && !IsLost(s.sent, pn, largest, now, delay) && s.sent[pn].timeSent + delay == next.value;
    assert pn in s'.sent && Doomed(s', pn, next.value, delay);
  }

  /** No timer is needed exactly when no candidate survives. */
  lemma LossTimerArmed(s: SentState, now: nat, delay: nat)
    requires Keyed(s.sent) && s.largestAcked.Some?
    ensures FindLost(s, now, delay).2.None?
       <==> forall pn: nat :: pn in FindLost(s, now, delay).0.sent ==> pn > s.largestAcked.value
  {
    DetectLostExact(s, now, delay);
    var keys := KeysIn(s.sent, 0, s.largestAcked.value + 1);
    NextLossTimeIsMinimum(s.sent, keys, s.largestAcked.value, now, delay);
  }

  // ------------------------------------------------------------------- PTO probes

  predicate CanProbe(sent: Store, pn: nat) {
    pn in sent && sent[pn].ackEliciting && sent[pn].frames != []
  }

  /** `pn` is the lowest-numbered outstanding packet worth retransmitting on a PTO. */
  ghost predicate OldestProbe(sent: Store, pn: nat) {
    CanProbe(sent, pn) && forall q :: CanProbe(sent, q) ==> pn <= q
  }

  lemma Snoc(packets: seq<SentPacket>, p: SentPacket)
    ensures AnyAckEliciting(packets + [p]) == (AnyAckEliciting(packets) || p.ackEliciting)
    ensures LargestNumber(packets + [p]) == Some(MaxOpt(LargestNumber(packets), p.number))
  {
    var all := packets + [p];
    assert all[..|all| - 1] == packets;
    assert p.ackEliciting ==> all[|packets|].ackEliciting;
    if AnyAckEliciting(packets) {
      var i :| 0 <= i < |packets| && packets[i].ackEliciting;
      assert all[i].ackEliciting;
    }
  }

  /** Expands the frame's ranges as it walks them, stopping at an underflowing gap. */
  method ExpandRanges(largest: nat, firstRange: nat, pairs: seq<AckRange>) returns (out: seq<Range>)
    ensures out == ExpandAck(largest, firstRange, pairs)
  {
    var firstLow := SatSub(largest, firstRange);
    out := [Range(firstLow, largest)];
    var smallest: nat := firstLow;
    var i := 0;
    while i < |pairs|
      invariant 0 <= i <= |pairs|
      invariant out + ExpandPairs(smallest, pairs[i..]) == ExpandAck(largest, firstRange, pairs)
    {
      if smallest < pairs[i].gap + 2 {
        break;
      }
      var nextLargest := smallest - (pairs[i].gap + 2);
      var nextLow := SatSub(nextLargest, pairs[i].range);
      assert pairs[i..][1..] == pairs[i + 1..];
      assert out + ([Range(nextLow, nextLargest)] + ExpandPairs(nextLow, pairs[i + 1..]))
          == out + [Range(nextLow, nextLargest)] + ExpandPairs(nextLow, pairs[i + 1..]);
      out := out + [Range(nextLow, nextLargest)];
      smallest := nextLow;
      i := i + 1;
    }
    assert out + [] == out;
  }

  class SentPacketStore {
    var sent: Store
    var largestAcked: Option<nat>

    function Value(): (s: SentState)
      reads this
    {
      SentState(sent, largestAcked)
    }

    constructor ()
      ensures Value() == SentState(map[], None)
    {
      sent, largestAcked := map[], None;
    }

    method OnPacketSent(packet: SentPacket)
      modifies `sent
      ensures sent == old(sent)[packet.number := packet]
    {
      sent := sent[packet.number := packet];
    }

    method OnAck(largest: nat, firstRange: nat, pairs: seq<AckRange>) returns (outcome: AckOutcome)
      requires Keyed(sent)
      modifies this
      ensures Keyed(sent) && (Value(), outcome) == ApplyAck(old(Value()), largest, firstRange, pairs)
    {
      hide TakeKeys, KeysIn, ExpandAck, Keyed;
      largestAcked := Some(MaxOpt(largestAcked, largest));
      outcome := AckOutcome([], false, None);
      var ranges := ExpandRanges(largest, firstRange, pairs);
      var i := 0;
      while i < |ranges|
        invariant 0 <= i <= |ranges| && Keyed(sent)
        invariant (sent, outcome.newlyAcked) == TakeRanges(old(sent), ranges[..i])
        invariant Summarised(outcome)
        invariant largestAcked == Some(MaxOpt(old(largestAcked), largest))
      {
        var keys := KeysIn(sent, ranges[i].low, ranges[i].high + 1);
        outcome := TakeAcked(keys, outcome);
        assert ranges[..i + 1][..i] == ranges[..i];
        i := i + 1;
      }
      assert ranges[..i] == ranges;
    }

    /** Moves the listed records into `outcome`, one packet at a time. */
    method TakeAcked(keys: seq<nat>, outcome: AckOutcome) returns (r: AckOutcome)
      requires Keyed(sent) && Summarised(outcome)
      modifies `sent
      ensures Keyed(sent) && Summarised(r)
      ensures sent == TakeKeys(old(sent), keys).0
      ensures r.newlyAcked == outcome.newlyAcked + TakeKeys(old(sent), keys).1
    {
      r := outcome;
      var j := 0;
      while j < |keys|
        invariant 0 <= j <= |keys| && Keyed(sent) && Summarised(r)
        invariant sent == TakeKeys(old(sent), keys[..j]).0
        invariant r.newlyAcked == outcome.newlyAcked + TakeKeys(old(sent), keys[..j]).1
      {
        var pn := keys[j];
        assert keys[..j + 1][..j] == keys[..j];
        if pn in sent {
          var packet := sent[pn];
          Snoc(r.newlyAcked, packet);
          sent := sent - {pn};
          r := AckOutcome(r.newlyAcked + [packet], r.ackedAckEliciting || packet.ackEliciting,
                          Some(MaxOpt(r.largestNewlyAcked, pn)));
        }
        j := j + 1;
      }
      assert keys[..j] == keys;
    }

    method DetectLost(now: nat, delay: nat) returns (lost: seq<SentPacket>, next: Option<nat>)
      modifies `sent
      ensures (Value(), lost, next) == FindLost(old(Value()), now, delay)
    {
      if largestAcked.None? {
        return [], None;
      }
      lost, next := Scan(KeysIn(sent, 0, largestAcked.value + 1), largestAcked.value, now, delay);
    }

    /** Judges the candidates in order, removing the lost ones. */
    method Scan(candidates: seq<nat>, largest: nat, now: nat, delay: nat)
      returns (lost: seq<SentPacket>, next: Option<nat>)
      requires forall pn :: pn in candidates ==> pn in sent
      requires forall i, j :: 0 <= i < j < |candidates| ==> candidates[i] < candidates[j]
      modifies `sent
      ensures (sent, lost) == TakeKeys(old(sent), LostKeys(old(sent), candidates, largest, now, delay))
      ensures next == NextLossTime(old(sent), candidates, largest, now, delay)
    {
      lost, next := [], None;
      ghost var was, gone := sent, [];
      ghost var seen: seq<nat> := [];
      LostStart(was, largest, now, delay);
      hide TakeKeys, LostKeys, NextLossTime;
      var i := 0;
      while i < |candidates|
        invariant 0 <= i <= |candidates| && seen == candidates[..i]
        invariant forall pn :: pn in seen ==> pn in was
        invariant gone == LostKeys(was, seen, largest, now, delay)
        invariant (sent, lost) == TakeKeys(was, gone)
        invariant next == NextLossTime(was, seen, largest, now, delay)
      {
        var pn: nat := candidates[i];
        NotYet(candidates, i);
        LostStep(was, seen, pn, largest, now, delay);
        TakeKeysRemaining(was, gone, pn);
        seen := seen + [pn];
        if largest >= pn + PACKET_THRESHOLD || (delay <= now && sent[pn].timeSent <= now - delay) {
          TakeKeysSnoc(was, gone, pn);
          gone := gone + [pn];
          lost := lost + [sent[pn]];
          sent := sent - {pn};
        } else {
          next := Some(MinOpt(next, sent[pn].timeSent + delay));
        }
        i := i + 1;
      }
      assert candidates[..i] == candidates;
    }

    /** The earliest send time of an outstanding ack-eliciting packet. */
    method EarliestAckElicitingTime() returns (r: Option<nat>)
      ensures r.None? <==> forall pn :: pn in sent ==> !sent[pn].ackEliciting
      ensures r.Some? ==> exists pn :: pn in sent && sent[pn].ackEliciting && sent[pn].timeSent == r.value
      ensures r.Some? ==> forall pn :: pn in sent && sent[pn].ackEliciting ==> r.value <= sent[pn].timeSent
    {
      r := None;
      var todo := sent.Keys;
      while todo != {}
        invariant todo <= sent.Keys
        invariant r.None? <==> forall pn :: pn in sent && pn !in todo ==> !sent[pn].ackEliciting
        invariant r.Some? ==> exists pn :: pn in sent && sent[pn].ackEliciting && sent[pn].timeSent == r.value
        invariant r.Some? ==>
                    forall pn :: pn in sent && pn !in todo && sent[pn].ackEliciting ==> r.value <= sent[pn].timeSent
      {
        var pn :| pn in todo;
        todo := todo - {pn};
        if sent[pn].ackEliciting {
          r := Some(MinOpt(r, sent[pn].timeSent));
        }
      }
    }

    /** The frames of the lowest-numbered packet worth probing with. */
    method OldestAckElicitingFrames() returns (r: Option<seq<SentFrame>>)
      ensures r.None? <==> forall pn :: !CanProbe(sent, pn)
      ensures r.Some? ==> exists pn :: OldestProbe(sent, pn) && r.value == sent[pn].frames
    {
      var best: Option<nat> := None;
      var todo := sent.Keys;
      while todo != {}
        invariant todo <= sent.Keys
        invariant best.None? <==> forall pn :: CanProbe(sent, pn) ==> pn in todo
        invariant best.Some? ==> CanProbe(sent, best.value)
        invariant best.Some? ==> forall pn :: CanProbe(sent, pn) && pn !in todo ==> best.value <= pn
      {
        var pn :| pn in todo;
        todo := todo - {pn};
        if CanProbe(sent, pn) {
          best := Some(MinOpt(best, pn));
        }
      }
      if best.None? {
        return None;
      }
      assert OldestProbe(sent, best.value);
      r := Some(sent[best.value].frames);
    }
  }

  /** The running summary agrees with the packets collected so far. */
  predicate Summarised(outcome: AckOutcome) {
    && outcome.ackedAckEliciting == AnyAckEliciting(outcome.newlyAcked)
    && outcome.largestNewlyAcked == LargestNumber(outcome.newlyAcked)
  }
}
