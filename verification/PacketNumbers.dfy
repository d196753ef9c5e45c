/**
 * Truncated packet numbers (section 17.1 and Appendix A of RFC 9000): the sender
 * transmits 1 to 4 low octets, the receiver recovers the full number.
 */
module PacketNumbers {
  import opened Common
  import opened Coding

  const U64_MAX: nat := 0xffff_ffff_ffff_ffff

  /** How many octets the sender uses, given the largest number the peer acknowledged. */
  function PacketNumberLen(pn: nat, largestAcked: Option<nat>): (len: nat)
    ensures 1 <= len <= 4
  {
    var range := match largestAcked
      case Some(acked) => 2 * SatSub(pn, acked)
      case None => 2 * (pn + 1);
    if range < 0x100 then 1
    else if range < 0x1_0000 then 2
    else if range < 0x100_0000 then 3
    else 4
  }

  function EncodePacketNumber(pn: nat, len: nat): (s: seq<byte>) {
    BigEndian(pn, Max(1, Min(len, 4)))
  }

  /** The number the receiver expects next. */
  function Expected(largest: Option<nat>): (e: nat) {
    match largest case Some(l) => l + 1 case None => 0
  }

  /** The wire bits placed in the window-sized block that holds `expected`. */
  function Candidate(expected: nat, truncated: nat, win: nat): (c: nat)
    requires win > 0
  {
    expected - expected % win + truncated
  }

  function DecodePacketNumber(largest: Option<nat>, truncated: nat, len: nat): (pn: nat) {
    DecodeInWindow(Expected(largest), truncated, Pow256(len))
  }

  /** Picks the candidate closest to `expected`; `win` is 2^(8 * len). */
  function DecodeInWindow(expected: nat, truncated: nat, win: nat): (pn: nat)
    requires win > 0
  {
    var hwin := win / 2;
    var candidate := Candidate(expected, truncated, win);
    if candidate + hwin <= expected && candidate + win < U64_MAX
       && SatSub(expected, candidate) > hwin then candidate + win
    else if candidate > expected + hwin && candidate >= win then candidate - win
    else candidate
  }

  /** Exactly the numbers that survive truncation to `win` and recovery at `expected`. */
  predicate Recoverable(expected: nat, pn: nat, win: nat)
    requires win > 0
  {
    var hwin, d := win / 2, pn - expected;
    if pn / win == expected / win then -hwin <= d && (d <= hwin || pn < win)
    else -hwin < d < hwin
  }

  lemma SameResidue(expected: nat, pn: nat, win: nat)
    requires win > 0
    ensures Candidate(expected, pn % win, win) == pn - win * (pn / win - expected / win)
  {
    assert pn == win * (pn / win) + pn % win;
    assert expected == win * (expected / win) + expected % win;
    assert win * (pn / win - expected / win) == win * (pn / win) - win * (expected / win);
  }

  lemma EvenWindow(len: nat)
    requires 1 <= len <= 4
    ensures Pow256(len) == 2 * (Pow256(len) / 2) && Pow256(len) <= 0x1_0000_0000
  {
    Pow256Values();
  }

  /** Recovery is exact: it returns the sent number if and only if `Recoverable`. */
  lemma DecodeExact(largest: Option<nat>, pn: nat, len: nat)
    requires 1 <= len <= 4 && pn <= VARINT_MAX && Expected(largest) <= VARINT_MAX
    ensures DecodePacketNumber(largest, pn % Pow256(len), len) == pn
       <==> Recoverable(Expected(largest), pn, Pow256(len))
  {
    EvenWindow(len);
    DecodeInWindowExact(Expected(largest), pn, Pow256(len));
  }

  lemma DecodeInWindowExact(e: nat, pn: nat, win: nat)
    requires 0 < win <= 0x1_0000_0000 && win == 2 * (win / 2)
    requires pn <= VARINT_MAX && e <= VARINT_MAX
    ensures DecodeInWindow(e, pn % win, win) == pn <==> Recoverable(e, pn, win)
  {
    SameResidue(e, pn, win);
    BlockCases(e, pn, win, win / 2, pn / win - e / win, Candidate(e, pn % win, win));
  }

  /** The three tests of the decoder, with the candidate `k` blocks away from the number. */
  lemma BlockCases(e: nat, pn: nat, win: nat, h: int, k: int, c: nat)
    requires win == 2 * h && h > 0 && c == pn - win * k && e - win < c < e + win
    ensures (if e - c > h then c + win == pn else if c > e + h && c >= win then c - win == pn else c == pn)
       <==> if k == 0 then -h <= pn - e && (pn - e <= h || pn < win) else -h < pn - e < h
  {
    MulAtLeast(win, k - 1);
    MulAtLeast(win, k + 1);
    assert win * (k - 1) == win * k - win && win * (k + 1) == win * k + win;
  }

  /**
   * The sender's choice of length is enough: the receiver is at least as far as the
   * acknowledgement the sender saw and less than half a window past the packet.
   */
  lemma PacketNumberRecovery(pn: nat, acked: Option<nat>, largest: Option<nat>)
    requires pn <= VARINT_MAX && Expected(largest) <= VARINT_MAX
    requires Expected(acked) <= Expected(largest)
    requires match acked case Some(a) => pn - a < 0x8000_0000 case None => pn + 1 < 0x8000_0000
    requires 2 * (Expected(largest) - pn) < Pow256(PacketNumberLen(pn, acked))
    ensures var len := PacketNumberLen(pn, acked);
            DecodePacketNumber(largest, FromBigEndian(EncodePacketNumber(pn, len)), len) == pn
  {
    var len := PacketNumberLen(pn, acked);
    BigEndianValue(pn, len);
    DecodeExact(largest, pn, len);
    LengthSuffices(pn, acked, largest);
    hide DecodePacketNumber, Recoverable, PacketNumberLen, Pow256, BigEndian, FromBigEndian;
  }

  /**
   * And no longer than it must be: one octet less could not tell apart twice as many numbers
   * as lie between the packet and the last one acknowledged. Four octets are the limit.
   */
  lemma LengthShortest(pn: nat, acked: Option<nat>)
    ensures var len := PacketNumberLen(pn, acked);
            var range := match acked case Some(a) => 2 * (pn - a) case None => 2 * (pn + 1);
            && (len > 1 ==> range >= Pow256(len - 1)) && (len < 4 ==> range < Pow256(len))
  {
    Pow256Values();
  }

  lemma LengthSuffices(pn: nat, acked: Option<nat>, largest: Option<nat>)
    requires Expected(acked) <= Expected(largest)
    requires match acked case Some(a) => pn - a < 0x8000_0000 case None => pn + 1 < 0x8000_0000
    requires 2 * (Expected(largest) - pn) < Pow256(PacketNumberLen(pn, acked))
    ensures Recoverable(Expected(largest), pn, Pow256(PacketNumberLen(pn, acked)))
  {
    Pow256Values();
    hide Pow256;
  }

  /** The reference decoder of Appendix A.3 of RFC 9000. */
  function ReferenceDecode(largest: Option<nat>, truncated: nat, len: nat): (pn: int) {
    var expected := Expected(largest);
    var win := Pow256(len);
    var hwin := win / 2;
    var candidate := Candidate(expected, truncated, win);
    if candidate <= expected - hwin && candidate < VARINT_MAX + 1 - win then candidate + win
    else if candidate > expected + hwin && candidate >= win then candidate - win
    else candidate
  }

  /**
   * The two decoders differ exactly in two cases. Half a window behind, only the reference
   * moves up; and further behind, only the code moves up past the largest packet number.
   */
  lemma DiffersFromReference(largest: Option<nat>, truncated: nat, len: nat)
    requires 1 <= len <= 4 && truncated < Pow256(len) && Expected(largest) <= VARINT_MAX
    ensures DecodePacketNumber(largest, truncated, len) != ReferenceDecode(largest, truncated, len)
       <==> var win := Pow256(len);
            var behind := Expected(largest) - Candidate(Expected(largest), truncated, win);
            var up := Expected(largest) - behind + win;
            (behind == win / 2 && up <= VARINT_MAX) || (behind > win / 2 && up > VARINT_MAX)
  {
    EvenWindow(len);
  }

  /** The first case: 128 was expected and an octet 0 arrived. */
  lemma HalfWindowBehind()
    ensures DecodePacketNumber(Some(127), 0, 1) == 0 && ReferenceDecode(Some(127), 0, 1) == 256
  {
    Pow256Values();
  }

  /** The second case: the code returns 2^62, which is no packet number. */
  lemma PastLargestNumber()
    ensures DecodePacketNumber(Some(VARINT_MAX - 1), 0, 1) == VARINT_MAX + 1
    ensures ReferenceDecode(Some(VARINT_MAX - 1), 0, 1) == VARINT_MAX + 1 - 256
  {
    Pow256Values();
  }

  /** The block that holds a packet number has packet numbers only. */
  lemma CandidateInRange(expected: nat, truncated: nat, len: nat)
    requires 1 <= len <= 4 && truncated < Pow256(len) && expected <= VARINT_MAX
    ensures Candidate(expected, truncated, Pow256(len)) <= VARINT_MAX
  {
    Pow256Values();
    var win := Pow256(len);
    var blocks := if len == 1 then 0x40_0000_0000_0000 else if len == 2 then 0x4000_0000_0000
                  else if len == 3 then 0x40_0000_0000 else 0x4000_0000;
    assert win * blocks == VARINT_MAX + 1;
    hide Pow256;
    BlockBound(expected, win, blocks);
  }

  lemma BlockBound(x: nat, win: nat, blocks: nat)
    requires win > 0 && x < win * blocks
    ensures x - x % win + win <= win * blocks
  {
    var k := blocks - 1 - x / win;
    assert x == win * (x / win) + x % win;
    assert win * k == win * blocks - win - win * (x / win);
    assert win * (k + 1) == win * k + win;
    MulAtLeast(win, k + 1);
  }

  /** Within the packet number space of RFC 9000 the code leaves it only in that case. */
  lemma StaysInRange(largest: Option<nat>, truncated: nat, len: nat)
    requires 1 <= len <= 4 && truncated < Pow256(len) && Expected(largest) <= VARINT_MAX
    ensures var win := Pow256(len);
            var candidate := Candidate(Expected(largest), truncated, win);
            DecodePacketNumber(largest, truncated, len) > VARINT_MAX
            <==> Expected(largest) - candidate > win / 2 && candidate + win > VARINT_MAX
  {
    EvenWindow(len);
    CandidateInRange(Expected(largest), truncated, len);
    hide Pow256, Candidate;
  }
}
