/**
 * The wire forms of frames beyond the one the encoder writes: ACK frames with ECN counts,
 * STREAM frames without an offset or a length, DATAGRAM frames without a length; what is
 * refused; and the layout of every frame, octet by octet.
 */
module FrameForms {
  import opened Common
  import opened Coding
  import opened Frames
  import opened FrameLaws

  // ------------------------------------------------------------------- other forms

  /** The ACK frame `f` with the three ECN counts behind it. */
  function EcnForm(f: Frame, ect0: nat, ect1: nat, ce: nat): (s: seq<byte>)
    requires f.Ack? && WellFormed(f)
  {
    V(0x03) + (V(f.largest) + (V(f.delay) + (V(|f.ranges|) + (V(f.firstRange) + (EncodeRanges(f.ranges)
    + (V(ect0) + (V(ect1) + V(ce))))))))
  }

  /** It is the encoding of `f` with another type, and the counts. */
  lemma EcnFormIs(f: Frame, ect0: nat, ect1: nat, ce: nat)
    requires f.Ack? && WellFormed(f)
    ensures Encode(f) != [] && EcnForm(f, ect0, ect1, ce) == [0x03] + (Encode(f)[1..] + (V(ect0) + (V(ect1) + V(ce))))
  {
    EncodeVarint1(0x02);
    EncodeVarint1(0x03);
    var counts := V(ect0) + (V(ect1) + V(ce));
    var a, b, c, d, e := V(f.largest), V(f.delay), V(|f.ranges|), V(f.firstRange), EncodeRanges(f.ranges);
    hide V, EncodeRanges;
    assert Encode(f) == [0x02] + (a + (b + (c + (d + e))));
    assert Encode(f)[1..] == a + (b + (c + (d + e)));
    assert (a + (b + (c + (d + e)))) + counts == a + (b + (c + (d + (e + counts))));
  }

  /** An ACK frame with ECN counts is the ACK frame, whatever the counts are. */
  lemma EcnAck(f: Frame, ect0: nat, ect1: nat, ce: nat, rest: seq<byte>)
    requires f.Ack? && WellFormed(f) && Fits(ect0) && Fits(ect1) && Fits(ce)
    ensures DecodeFrame(EcnForm(f, ect0, ect1, ce) + rest) == Done(f, rest)
  {
    hide ParseVarint, V, ParseRanges, EncodeRanges;
    var counts := V(ect0) + (V(ect1) + V(ce));
    var ranges := EncodeRanges(f.ranges);
    var e := V(f.firstRange) + (ranges + counts);
    var d := V(|f.ranges|) + e;
    var c := V(f.delay) + d;
    var b := V(f.largest) + c;
    ReadVarint(0x03, b, rest);
    ReadVarint(f.largest, c, rest);
    ReadVarint(f.delay, d, rest);
    ReadVarint(|f.ranges|, e, rest);
    ReadVarint(f.firstRange, ranges + counts, rest);
    assert (ranges + counts) + rest == ranges + (counts + rest);
    ReadRanges(f.ranges, counts + rest);
    ReadVarint(ect0, V(ect1) + V(ce), rest);
    ReadVarint(ect1, V(ce), rest);
    ReadLast(ce, rest);
    assert DecodeAck(0x03, b + rest) == Done(f, rest);
  }

  /** The types of STREAM frames say whether there is an offset, a length and a FIN. */
  predicate HasOffset(typ: nat) { typ in {0x0c, 0x0d, 0x0e, 0x0f} }

  predicate HasLength(typ: nat) { typ in {0x0a, 0x0b, 0x0e, 0x0f} }

  predicate HasFin(typ: nat) { typ in {0x09, 0x0b, 0x0d, 0x0f} }

  function StreamForm(typ: nat, id: nat, offset: nat, data: seq<byte>): (s: seq<byte>) {
    V(typ) + (V(id) + ((if HasOffset(typ) then V(offset) else []) + if HasLength(typ) then Counted(data) else data))
  }

  /**
   * All eight forms of a STREAM frame: without an offset it is 0, without a length the data
   * is the rest of the payload.
   */
  lemma AnyStream(typ: nat, id: nat, offset: nat, data: seq<byte>, rest: seq<byte>)
    requires 0x08 <= typ <= 0x0f && Fits(id) && Fits(offset) && Fits(|data|)
    requires !HasOffset(typ) ==> offset == 0
    requires !HasLength(typ) ==> rest == []
    ensures DecodeFrame(StreamForm(typ, id, offset, data) + rest) == Done(Stream(id, offset, HasFin(typ), data), rest)
  {
    hide ParseVarint, V, ParseBytes, ParseCounted, Counted;
    var d := if HasLength(typ) then Counted(data) else data;
    var o := if HasOffset(typ) then V(offset) else [];
    var b := V(id) + (o + d);
    ReadVarint(typ, b, rest);
    ReadVarint(id, o + d, rest);
    if HasOffset(typ) {
      ReadVarint(offset, d, rest);
    } else {
      assert o + d == d;
    }
    if HasLength(typ) {
      ReadCounted(data, rest);
    } else {
      assert data + rest == data;
      ReadLastBytes(data, rest);
    }
    assert DecodeStream(typ, b + rest) == Done(Stream(id, offset, HasFin(typ), data), rest);
  }

  /** Without a length a DATAGRAM frame takes the rest of the payload. */
  lemma DatagramToEnd(data: seq<byte>)
    ensures DecodeFrame(V(0x30) + data) == Done(Datagram(data), [])
  {
    hide ParseVarint, V;
    ReadLast(0x30, data);
  }

  // ----------------------------------------------------------------------- refusals

  /** The frame types the decoder knows. */
  predicate Known(typ: nat) { typ <= 0x1e || typ == 0x30 || typ == 0x31 }

  /** Every other type is refused, whatever follows. */
  lemma UnknownRefused(typ: nat, s: seq<byte>)
    requires Fits(typ) && !Known(typ)
    ensures DecodeFrame(V(typ) + s).Fail? && DecodeFrame(V(typ) + s).error.Malformed?
  {
    hide ParseVarint, V;
    ReadLast(typ, s);
  }

  /** A limit on streams past 2^60 is refused. */
  lemma TooManyStreams(typ: nat, max: nat, s: seq<byte>)
    requires typ in {0x12, 0x13} && Fits(max)
    ensures DecodeFrame((V(typ) + V(max)) + s).Done? <==> max <= 0x1000_0000_0000_0000
  {
    hide ParseVarint, V;
    ReadVarint(typ, V(max), s);
    ReadLast(max, s);
  }

  /** A token must not be empty. */
  lemma EmptyToken(token: seq<byte>, s: seq<byte>)
    requires Fits(|token|)
    ensures DecodeFrame((V(0x07) + Counted(token)) + s).Done? <==> token != []
  {
    hide ParseVarint, V, ParseBytes;
    ReadVarint(0x07, Counted(token), s);
    ReadVarint(|token|, token, s);
    ReadLastBytes(token, s);
  }

  /** A connection ID has 1 to 20 octets, and retires none that is newer than itself. */
  lemma ConnectionIdLimits(n: nat, retire: nat, cid: seq<byte>, token: seq<byte>, s: seq<byte>)
    requires Fits(n) && Fits(retire) && |cid| < 256 && |token| == 16
    ensures DecodeFrame(Encode(NewConnectionId(n, retire, cid, token)) + s).Done?
       <==> retire <= n && 1 <= |cid| <= 20
  {
    var f := NewConnectionId(n, retire, cid, token);
    if retire <= n && 1 <= |cid| <= 20 {
      RoundTrip(f, s);
    } else {
      BadConnectionId(n, retire, cid, token, s);
    }
  }

  lemma BadConnectionId(n: nat, retire: nat, cid: seq<byte>, token: seq<byte>, s: seq<byte>)
    requires Fits(n) && Fits(retire) && |cid| < 256 && !(retire <= n && 1 <= |cid| <= 20)
    ensures DecodeFrame(Encode(NewConnectionId(n, retire, cid, token)) + s).Fail?
  {
    hide ParseVarint, V, ParseBytes, DecodeNewConnectionId, WellFormed;
    var d: seq<byte> := [|cid| % 256] + (cid + token);
    var c := V(retire) + d;
    var b := V(n) + c;
    assert Encode(NewConnectionId(n, retire, cid, token)) == V(0x18) + b;
    hide Encode;
    ReadVarint(0x18, b, s);
    ReadVarint(n, c, s);
    ReadVarint(retire, d, s);
    assert (d + s)[0] == d[0] == |cid|;
    BadFields(b + s, c + s, d + s, n, retire);
    assert DecodeFrame((V(0x18) + b) + s) == DecodeNewConnectionId(b + s);
  }

  lemma BadFields(s: seq<byte>, s1: seq<byte>, s2: seq<byte>, n: nat, retire: nat)
    requires ParseVarint(s) == Done(n, s1) && ParseVarint(s1) == Done(retire, s2) && s2 != []
    requires retire > n || s2[0] == 0 || s2[0] > 20
    ensures DecodeNewConnectionId(s).Fail?
  {
    hide ParseVarint, ParseBytes;
  }

  // ---------------------------------------------------------- what follows is ignored

  lemma CountedExtends(s: seq<byte>, more: seq<byte>)
    requires ParseCounted(s).Done?
    ensures ParseCounted(s + more) == Done(ParseCounted(s).value, ParseCounted(s).rest + more)
  {
    hide ParseVarint;
    VarintExtends(s, more);
    BytesExtend(ParseVarint(s).rest, more, ParseVarint(s).value);
  }

  lemma {:induction false} RangesExtend(s: seq<byte>, more: seq<byte>, count: nat)
    requires ParseRanges(s, count).Done?
    ensures ParseRanges(s + more, count) == Done(ParseRanges(s, count).value, ParseRanges(s, count).rest + more)
    decreases count
  {
    hide ParseVarint;
    if count > 0 {
      VarintExtends(s, more);
      var s1 := ParseVarint(s).rest;
      VarintExtends(s1, more);
      RangesExtend(ParseVarint(s1).rest, more, count - 1);
      ParseRangesStep(s, count);
      ParseRangesStep(s + more, count);
    }
  }

  lemma AckExtends(typ: nat, s: seq<byte>, more: seq<byte>)
    requires DecodeAck(typ, s).Done?
    ensures DecodeAck(typ, s + more) == Done(DecodeAck(typ, s).value, DecodeAck(typ, s).rest + more)
  {
    hide ParseVarint, ParseRanges, WellFormed;
    var s1 := ParseVarint(s).rest;
    var s2 := ParseVarint(s1).rest;
    var s3 := ParseVarint(s2).rest;
    var s4 := ParseVarint(s3).rest;
    VarintExtends(s, more);
    VarintExtends(s1, more);
    VarintExtends(s2, more);
    VarintExtends(s3, more);
    RangesExtend(s4, more, ParseVarint(s2).value);
    if typ == 0x03 {
      var s5 := ParseRanges(s4, ParseVarint(s2).value).rest;
      var s6 := ParseVarint(s5).rest;
      VarintExtends(s5, more);
      VarintExtends(s6, more);
      VarintExtends(ParseVarint(s6).rest, more);
    }
  }

  lemma StreamExtends(typ: nat, s: seq<byte>, more: seq<byte>)
    requires typ / 2 % 2 != 0 && DecodeStream(typ, s).Done?
    ensures DecodeStream(typ, s + more) == Done(DecodeStream(typ, s).value, DecodeStream(typ, s).rest + more)
  {
    hide ParseVarint, ParseCounted;
    VarintExtends(s, more);
    var s1 := ParseVarint(s).rest;
    if typ / 4 % 2 != 0 {
      VarintExtends(s1, more);
    }
    CountedExtends(if typ / 4 % 2 != 0 then ParseVarint(s1).rest else s1, more);
  }

  lemma ConnectionIdExtends(s: seq<byte>, more: seq<byte>)
    requires DecodeNewConnectionId(s).Done?
    ensures DecodeNewConnectionId(s + more)
         == Done(DecodeNewConnectionId(s).value, DecodeNewConnectionId(s).rest + more)
  {
    hide ParseVarint, WellFormed, ParseBytes, ParseU8;
    VarintExtends(s, more);
    var s1 := ParseVarint(s).rest;
    VarintExtends(s1, more);
    var s2 := ParseVarint(s1).rest;
    OctetExtends(s2, more);
    var Done(len, s3) := ParseU8(s2);
    TakenExtends(s3, more, len);
    TakenExtends(ParseBytes(s3, len).rest, more, 16);
  }

  lemma OctetExtends(s: seq<byte>, more: seq<byte>)
    requires ParseU8(s).Done?
    ensures ParseU8(s + more) == Done(ParseU8(s).value, ParseU8(s).rest + more)
  {
    assert (s + more)[1..] == s[1..] + more;
  }

  lemma TakenExtends(s: seq<byte>, more: seq<byte>, len: nat)
    requires ParseBytes(s, len).Done?
    ensures ParseBytes(s + more, len) == Done(ParseBytes(s, len).value, ParseBytes(s, len).rest + more)
  {
    BytesExtend(s, more, len);
  }

  lemma CloseExtends(typ: nat, s: seq<byte>, more: seq<byte>)
    requires DecodeClose(typ, s).Done?
    ensures DecodeClose(typ, s + more) == Done(DecodeClose(typ, s).value, DecodeClose(typ, s).rest + more)
  {
    hide ParseVarint, ParseCounted, WellFormed;
    VarintExtends(s, more);
    var s1 := ParseVarint(s).rest;
    if typ == 0x1c {
      VarintExtends(s1, more);
      CountedExtends(ParseVarint(s1).rest, more);
    } else {
      CountedExtends(s1, more);
    }
  }

  lemma IntegersExtend(typ: nat, s: seq<byte>, more: seq<byte>)
    requires typ in {0x04, 0x05, 0x10, 0x11, 0x12, 0x13, 0x14, 0x15, 0x16, 0x17, 0x19}
    requires DecodeIntegers(typ, s).Done?
    ensures DecodeIntegers(typ, s + more) == Done(DecodeIntegers(typ, s).value, DecodeIntegers(typ, s).rest + more)
  {
    hide ParseVarint, WellFormed;
    VarintExtends(s, more);
    if typ in {0x04, 0x05, 0x11, 0x15} {
      var s1 := ParseVarint(s).rest;
      VarintExtends(s1, more);
      if typ == 0x04 {
        VarintExtends(ParseVarint(s1).rest, more);
      }
    }
  }

  lemma NewTokenExtends(s: seq<byte>, more: seq<byte>)
    requires DecodeNewToken(s).Done?
    ensures DecodeNewToken(s + more) == Done(DecodeNewToken(s).value, DecodeNewToken(s).rest + more)
  {
    hide ParseVarint, WellFormed;
    VarintExtends(s, more);
    BytesExtend(ParseVarint(s).rest, more, ParseVarint(s).value);
  }

  /** The types of frames that say where they end. */
  predicate Delimited(typ: nat) { typ !in {0x00, 0x08, 0x09, 0x0c, 0x0d, 0x30} }

  lemma BodyExtends(typ: nat, s: seq<byte>, more: seq<byte>)
    requires Delimited(typ) && DecodeBody(typ, s).Done?
    ensures DecodeBody(typ, s + more) == Done(DecodeBody(typ, s).value, DecodeBody(typ, s).rest + more)
  {
    hide ParseVarint, ParseCounted, DecodeAck, DecodeStream, DecodeNewConnectionId, DecodeClose, DecodeIntegers,
         DecodeNewToken, LeadingZeros, WellFormed;
    if typ == 0x02 || typ == 0x03 {
      AckExtends(typ, s, more);
    } else if typ == 0x06 {
      VarintExtends(s, more);
      CountedExtends(ParseVarint(s).rest, more);
    } else if typ == 0x07 {
      NewTokenExtends(s, more);
    } else if 0x08 <= typ <= 0x0f {
      StreamExtends(typ, s, more);
    } else if typ == 0x18 {
      ConnectionIdExtends(s, more);
    } else if 0x04 <= typ <= 0x05 || 0x10 <= typ <= 0x17 || typ == 0x19 {
      IntegersExtend(typ, s, more);
    } else if typ == 0x1a || typ == 0x1b {
      BytesExtend(s, more, 8);
    } else if typ == 0x1c || typ == 0x1d {
      CloseExtends(typ, s, more);
    } else if typ == 0x31 {
      CountedExtends(s, more);
    }
  }

  /** A frame that says where it ends is read the same, whatever follows it. */
  lemma FrameExtends(s: seq<byte>, more: seq<byte>)
    requires DecodeFrame(s).Done? && Delimited(ParseVarint(s).value)
    ensures DecodeFrame(s + more) == Done(DecodeFrame(s).value, DecodeFrame(s).rest + more)
  {
    hide ParseVarint, DecodeBody;
    VarintExtends(s, more);
    BodyExtends(ParseVarint(s).value, ParseVarint(s).rest, more);
  }

  lemma FirstIsType(f: Frame)
    requires WellFormed(f) && !f.Padding?
    ensures Encode(f) != [] && Delimited(Encode(f)[0]) && Encode(f)[0] < 0x40
  {
    TypeOctet();
    hide V, Counted, EncodeRanges;
  }

  /** No frame that is cut short is accepted, wherever the cut is. */
  lemma TruncatedRefused(f: Frame, k: nat)
    requires WellFormed(f) && !f.Padding? && k < |Encode(f)|
    ensures DecodeFrame(Encode(f)[..k]).Fail?
  {
    hide DecodeFrame, Encode, WellFormed, ParseVarint, Delimited;
    RoundTrip(f, []);
    var s, more := Encode(f)[..k], Encode(f)[k..];
    assert s + more == Encode(f) && Encode(f) + [] == Encode(f);
    if DecodeFrame(s).Done? {
      TypeOfCut(f, k);
      FrameExtends(s, more);
      assert false;
    }
  }

  lemma SmallFirst(s: seq<byte>)
    requires s != [] && s[0] < 0x40
    ensures ParseVarint(s) == Done(s[0], s[1..])
  {
    assert [s[0] % 64] + s[1..1] == [s[0]];
    assert FromBigEndian([s[0]][..0]) == 0;
  }

  lemma TypeOfCut(f: Frame, k: nat)
    requires WellFormed(f) && !f.Padding? && k <= |Encode(f)| && DecodeFrame(Encode(f)[..k]).Done?
    ensures Delimited(ParseVarint(Encode(f)[..k]).value)
  {
    hide Encode, DecodeBody, WellFormed;
    FirstIsType(f);
    var s := Encode(f)[..k];
    assert s != [];
    SmallFirst(s);
    hide ParseVarint;
  }

  // ------------------------------------------------------------------------- layout

  /** An integer below 64 takes one octet, its value. */
  predicate Small(x: nat) { x < 0x40 }

  lemma SmallOctet(x: nat)
    requires Small(x)
    ensures V(x) == [x]
  {
    EncodeVarint1(x);
  }

  /** The types and the order of the fields of every frame of integers (section 19 of RFC 9000). */
  lemma IntegerLayout(a: nat, b: nat, c: nat)
    requires Small(a) && Small(b) && Small(c)
    ensures Encode(ResetStream(a, b, c)) == [0x04, a, b, c]
    ensures Encode(StopSending(a, b)) == [0x05, a, b]
    ensures Encode(MaxStreamData(a, b)) == [0x11, a, b]
    ensures Encode(StreamDataBlocked(a, b)) == [0x15, a, b]
  {
    SmallOctet(a);
    SmallOctet(b);
    SmallOctet(c);
    SmallOctet(0x04);
    SmallOctet(0x05);
    SmallOctet(0x11);
    SmallOctet(0x15);
    hide V;
  }

  lemma LimitLayout(a: nat)
    requires Small(a)
    ensures Encode(MaxData(a)) == [0x10, a] && Encode(DataBlocked(a)) == [0x14, a]
    ensures Encode(RetireConnectionId(a)) == [0x19, a]
    ensures Encode(Ping) == [0x01] && Encode(HandshakeDone) == [0x1e]
  {
    SmallOctet(a);
    SmallOctet(0x10);
    SmallOctet(0x14);
    SmallOctet(0x19);
    SmallOctet(0x01);
    SmallOctet(0x1e);
    hide V;
  }

  lemma StreamLimitLayout(a: nat)
    requires Small(a)
    ensures Encode(MaxStreams(Bidirectional, a)) == [0x12, a] && Encode(MaxStreams(Unidirectional, a)) == [0x13, a]
    ensures Encode(StreamsBlocked(Bidirectional, a)) == [0x16, a]
    ensures Encode(StreamsBlocked(Unidirectional, a)) == [0x17, a]
  {
    SmallOctet(a);
    SmallOctet(0x12);
    SmallOctet(0x13);
    SmallOctet(0x16);
    SmallOctet(0x17);
    hide V;
  }

  /** A type and up to three integers in front of octets. */
  lemma Fronts(t: byte, a: byte, b: byte, n: byte, data: seq<byte>)
    ensures [t] + ([n] + data) == [t, n] + data
    ensures [t] + ([a] + ([n] + data)) == [t, a, n] + data
    ensures [t] + ([a] + ([b] + ([n] + data))) == [t, a, b, n] + data
  {
  }

  /** The same for frames that carry octets. */
  lemma DataLayout(a: nat, b: nat, data: seq<byte>)
    requires Small(a) && Small(b) && Small(|data|)
    ensures Encode(Crypto(a, data)) == [0x06, a, |data|] + data
    ensures Encode(NewToken(data)) == [0x07, |data|] + data
    ensures Encode(Stream(a, b, false, data)) == [0x0e, a, b, |data|] + data
    ensures Encode(Stream(a, b, true, data)) == [0x0f, a, b, |data|] + data
    ensures Encode(Datagram(data)) == [0x31, |data|] + data
  {
    SmallOctet(a);
    SmallOctet(b);
    SmallOctet(|data|);
    SmallOctet(0x06);
    SmallOctet(0x07);
    SmallOctet(0x0e);
    SmallOctet(0x0f);
    SmallOctet(0x31);
    hide V;
    Fronts(0x06, a, b, |data|, data);
    Fronts(0x07, a, b, |data|, data);
    Fronts(0x0e, a, b, |data|, data);
    Fronts(0x0f, a, b, |data|, data);
    Fronts(0x31, a, b, |data|, data);
  }

  lemma CloseLayout(a: nat, b: nat, data: seq<byte>)
    requires Small(a) && Small(b) && Small(|data|)
    ensures Encode(PathChallenge(data)) == [0x1a] + data && Encode(PathResponse(data)) == [0x1b] + data
    ensures Encode(ConnectionClose(a, Some(b), false, data)) == [0x1c, a, b, |data|] + data
    ensures Encode(ConnectionClose(a, None, true, data)) == [0x1d, a, |data|] + data
  {
    SmallOctet(a);
    SmallOctet(b);
    SmallOctet(|data|);
    SmallOctet(0x1a);
    SmallOctet(0x1b);
    SmallOctet(0x1c);
    SmallOctet(0x1d);
    hide V;
    Fronts(0x1c, a, b, |data|, data);
    Fronts(0x1d, a, b, |data|, data);
  }

  /** And for acknowledgements, with no further range and with one. */
  lemma AckLayout(a: nat, b: nat, c: nat, r: AckRange)
    requires Small(a) && Small(b) && Small(c) && Small(r.gap) && Small(r.range)
    ensures Encode(Ack(a, b, c, [])) == [0x02, a, b, 0, c]
    ensures Encode(Ack(a, b, c, [r])) == [0x02, a, b, 1, c, r.gap, r.range]
  {
    SmallOctet(a);
    SmallOctet(b);
    SmallOctet(c);
    SmallOctet(0);
    SmallOctet(1);
    SmallOctet(0x02);
    SmallOctet(r.gap);
    SmallOctet(r.range);
    hide V;
    assert EncodeRanges([]) == [];
    assert EncodeRanges([r]) == [r.gap, r.range] by {
      assert [r][1..] == [];
    }
    hide EncodeRanges;
  }

  lemma ConnectionIdLayout(a: nat, b: nat, cid: seq<byte>, token: seq<byte>)
    requires Small(a) && Small(b) && |cid| < 256
    ensures Encode(NewConnectionId(a, b, cid, token)) == [0x18, a, b, |cid|] + (cid + token)
  {
    SmallOctet(a);
    SmallOctet(b);
    SmallOctet(0x18);
    hide V;
    Fronts(0x18, a, b, |cid|, cid + token);
  }
}
