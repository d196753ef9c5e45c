/**
 * What the frame codec guarantees: decoding inverts encoding, decoding is bounded and
 * normalising on arbitrary input, and whole payloads come back frame by frame.
 */
module FrameLaws {
  import opened Common
  import opened Coding
  import opened Frames

  // -------------------------------------------------------------- single fields

  lemma ReadVarint(x: nat, body: seq<byte>, rest: seq<byte>)
    requires Fits(x)
    ensures ParseVarint((V(x) + body) + rest) == Done(x, body + rest)
  {
    assert (V(x) + body) + rest == V(x) + (body + rest);
    VarintRoundTrip(x, body + rest);
  }

  lemma ReadLast(x: nat, rest: seq<byte>)
    requires Fits(x)
    ensures ParseVarint(V(x) + rest) == Done(x, rest)
  {
    VarintRoundTrip(x, rest);
  }

  lemma ReadBytes(data: seq<byte>, body: seq<byte>, rest: seq<byte>)
    ensures ParseBytes((data + body) + rest, |data|) == Done(data, body + rest)
  {
    var s := (data + body) + rest;
    assert s[..|data|] == data && s[|data|..] == body + rest;
  }

  lemma ReadLastBytes(data: seq<byte>, rest: seq<byte>)
    ensures ParseBytes(data + rest, |data|) == Done(data, rest)
  {
    ReadBytes(data, [], rest);
    assert data + [] == data && [] + rest == rest;
  }

  lemma ReadCounted(data: seq<byte>, rest: seq<byte>)
    requires Fits(|data|)
    ensures ParseCounted(Counted(data) + rest) == Done(data, rest)
  {
    hide ParseVarint, V;
    ReadVarint(|data|, data, rest);
    ReadLastBytes(data, rest);
  }

  lemma {:induction false} ReadRanges(ranges: seq<AckRange>, rest: seq<byte>)
    requires RangesFit(ranges)
    ensures ParseRanges(EncodeRanges(ranges) + rest, |ranges|) == Done(ranges, rest)
  {
    hide ParseVarint, V;
    if ranges == [] {
      assert EncodeRanges(ranges) + rest == rest;
    } else {
      var gap, range, tail := ranges[0].gap, ranges[0].range, EncodeRanges(ranges[1..]);
      ReadVarint(gap, V(range) + tail, rest);
      ReadVarint(range, tail, rest);
      ReadRanges(ranges[1..], rest);
      assert [AckRange(gap, range)] + ranges[1..] == ranges;
      ParseRangesStep(EncodeRanges(ranges) + rest, |ranges|);
      hide ParseRanges;
    }
  }

  // --------------------------------------------------------------- single frames

  lemma AckRoundTrip(f: Frame, rest: seq<byte>)
    requires f.Ack? && WellFormed(f)
    ensures DecodeFrame(Encode(f) + rest) == Done(f, rest)
  {
    hide ParseVarint, V, ParseBytes, ParseCounted, ParseRanges, Counted, EncodeRanges;
    var r := EncodeRanges(f.ranges);
    var e := V(f.firstRange) + r;
    var d := V(|f.ranges|) + e;
    var c := V(f.delay) + d;
    var b := V(f.largest) + c;
    ReadVarint(0x02, b, rest);
    ReadVarint(f.largest, c, rest);
    ReadVarint(f.delay, d, rest);
    ReadVarint(|f.ranges|, e, rest);
    ReadVarint(f.firstRange, r, rest);
    ReadRanges(f.ranges, rest);
    assert DecodeAck(0x02, b + rest) == Done(f, rest);
  }

  lemma StreamRoundTrip(f: Frame, rest: seq<byte>)
    requires f.Stream? && WellFormed(f)
    ensures DecodeFrame(Encode(f) + rest) == Done(f, rest)
  {
    hide ParseVarint, V, ParseBytes, ParseCounted, ParseRanges, Counted, EncodeRanges;
    var typ := if f.fin then 0x0f else 0x0e;
    var d := Counted(f.data);
    var c := V(f.offset) + d;
    var b := V(f.id) + c;
    ReadVarint(typ, b, rest);
    ReadVarint(f.id, c, rest);
    ReadVarint(f.offset, d, rest);
    ReadCounted(f.data, rest);
    assert DecodeStream(typ, b + rest) == Done(f, rest);
  }

  lemma NewConnectionIdRoundTrip(f: Frame, rest: seq<byte>)
    requires f.NewConnectionId? && WellFormed(f)
    ensures DecodeFrame(Encode(f) + rest) == Done(f, rest)
  {
    hide ParseVarint, V, ParseBytes, ParseCounted, ParseRanges, Counted, EncodeRanges;
    var e := f.cid + f.token;
    var len: seq<byte> := [|f.cid| % 256];
    var d := len + e;
    var c := V(f.retirePriorTo) + d;
    var b := V(f.number) + c;
    ReadVarint(0x18, b, rest);
    ReadVarint(f.number, c, rest);
    ReadVarint(f.retirePriorTo, d, rest);
    ReadBytes(len, e, rest);
    assert ParseU8(d + rest) == Done(|f.cid|, e + rest);
    ReadBytes(f.cid, f.token, rest);
    ReadLastBytes(f.token, rest);
    assert DecodeNewConnectionId(b + rest) == Done(f, rest);
  }

  lemma CloseRoundTrip(f: Frame, rest: seq<byte>)
    requires f.ConnectionClose? && WellFormed(f)
    ensures DecodeFrame(Encode(f) + rest) == Done(f, rest)
  {
    hide ParseVarint, V, ParseBytes, ParseCounted, ParseRanges, Counted, EncodeRanges;
    var d := Counted(f.reason);
    ReadCounted(f.reason, rest);
    if f.application {
      ReadVarint(0x1d, V(f.errorCode) + d, rest);
      ReadVarint(f.errorCode, d, rest);
    } else {
      var c := V(f.frameType.value) + d;
      ReadVarint(0x1c, V(f.errorCode) + c, rest);
      ReadVarint(f.errorCode, c, rest);
      ReadVarint(f.frameType.value, d, rest);
    }
  }

  lemma BytesRoundTrip(f: Frame, rest: seq<byte>)
    requires f.Crypto? || f.NewToken? || f.Datagram? || f.PathChallenge? || f.PathResponse?
    requires WellFormed(f)
    ensures DecodeFrame(Encode(f) + rest) == Done(f, rest)
  {
    hide ParseVarint, V, ParseBytes, ParseCounted, DecodeFrame;
    match f
    case Crypto(offset, data) => CryptoRoundTrip(offset, data, rest);
    case NewToken(token) => TokenRoundTrip(token, rest);
    case Datagram(data) => DatagramRoundTrip(data, rest);
    case PathChallenge(data) => PathRoundTrip(data, rest);
    case PathResponse(data) => PathRoundTrip(data, rest);
  }

  lemma CryptoRoundTrip(offset: nat, data: seq<byte>, rest: seq<byte>)
    requires Fits(offset) && Fits(|data|)
    ensures DecodeFrame(Encode(Crypto(offset, data)) + rest) == Done(Crypto(offset, data), rest)
  {
    hide ParseVarint, V, ParseCounted, Counted, WellFormed;
    ReadVarint(0x06, V(offset) + Counted(data), rest);
    ReadVarint(offset, Counted(data), rest);
    ReadCounted(data, rest);
  }

  lemma TokenRoundTrip(token: seq<byte>, rest: seq<byte>)
    requires token != [] && Fits(|token|)
    ensures DecodeFrame(Encode(NewToken(token)) + rest) == Done(NewToken(token), rest)
  {
    hide ParseVarint, V, ParseBytes, WellFormed;
    ReadVarint(0x07, Counted(token), rest);
    ReadVarint(|token|, token, rest);
    ReadLastBytes(token, rest);
  }

  lemma DatagramRoundTrip(data: seq<byte>, rest: seq<byte>)
    requires Fits(|data|)
    ensures DecodeFrame(Encode(Datagram(data)) + rest) == Done(Datagram(data), rest)
  {
    hide ParseVarint, V, ParseCounted, Counted, WellFormed;
    ReadVarint(0x31, Counted(data), rest);
    ReadCounted(data, rest);
  }

  lemma PathRoundTrip(data: seq<byte>, rest: seq<byte>)
    requires |data| == 8
    ensures DecodeFrame(Encode(PathChallenge(data)) + rest) == Done(PathChallenge(data), rest)
    ensures DecodeFrame(Encode(PathResponse(data)) + rest) == Done(PathResponse(data), rest)
  {
    hide ParseVarint, V, ParseBytes, WellFormed;
    ReadVarint(0x1a, data, rest);
    ReadVarint(0x1b, data, rest);
    ReadLastBytes(data, rest);
  }

  lemma OneIntegerRoundTrip(f: Frame, typ: nat, a: nat, rest: seq<byte>)
    requires WellFormed(f) && Fits(a) && Encode(f) == V(typ) + V(a)
    requires typ in {0x10, 0x12, 0x13, 0x14, 0x16, 0x17, 0x19}
    ensures DecodeFrame(Encode(f) + rest) == DecodeIntegers(typ, V(a) + rest)
    ensures ParseVarint(V(a) + rest) == Done(a, rest)
  {
    hide ParseVarint, V;
    ReadVarint(typ, V(a), rest);
    ReadLast(a, rest);
  }

  lemma IntegersRoundTrip(f: Frame, rest: seq<byte>)
    requires f.ResetStream? || f.StopSending? || f.MaxData? || f.MaxStreamData? || f.MaxStreams?
             || f.DataBlocked? || f.StreamDataBlocked? || f.StreamsBlocked? || f.RetireConnectionId?
    requires WellFormed(f)
    ensures DecodeFrame(Encode(f) + rest) == Done(f, rest)
  {
    hide ParseVarint, V;
    match f
    case StopSending(id, code) => TwoIntegers(0x05, id, code, rest);
    case MaxStreamData(id, max) => TwoIntegers(0x11, id, max, rest);
    case StreamDataBlocked(id, limit) => TwoIntegers(0x15, id, limit, rest);
    case ResetStream(id, code, size) => ResetRoundTrip(id, code, size, rest);
    case _ =>
      hide DecodeFrame, Encode;
      LimitRoundTrip(f, rest);
  }

  lemma LimitRoundTrip(f: Frame, rest: seq<byte>)
    requires f.MaxData? || f.MaxStreams? || f.DataBlocked? || f.StreamsBlocked? || f.RetireConnectionId?
    requires WellFormed(f)
    ensures DecodeFrame(Encode(f) + rest) == Done(f, rest)
  {
    hide ParseVarint, V, DecodeFrame;
    match f
    case MaxData(max) => OneIntegerRoundTrip(f, 0x10, max, rest);
    case MaxStreams(dir, max) => OneIntegerRoundTrip(f, if dir.Unidirectional? then 0x13 else 0x12, max, rest);
    case DataBlocked(limit) => OneIntegerRoundTrip(f, 0x14, limit, rest);
    case StreamsBlocked(dir, limit) => OneIntegerRoundTrip(f, if dir.Unidirectional? then 0x17 else 0x16, limit, rest);
    case RetireConnectionId(n) => OneIntegerRoundTrip(f, 0x19, n, rest);
  }

  lemma ResetRoundTrip(id: nat, code: nat, size: nat, rest: seq<byte>)
    requires Fits(id) && Fits(code) && Fits(size)
    ensures DecodeFrame(Encode(ResetStream(id, code, size)) + rest) == Done(ResetStream(id, code, size), rest)
  {
    hide ParseVarint, V, WellFormed;
    var c := V(code) + V(size);
    var b := V(id) + c;
    assert Encode(ResetStream(id, code, size)) == V(0x04) + b;
    hide Encode;
    ReadVarint(0x04, b, rest);
    ReadVarint(id, c, rest);
    ReadVarint(code, V(size), rest);
    ReadLast(size, rest);
    assert DecodeIntegers(0x04, b + rest) == Done(ResetStream(id, code, size), rest);
    hide DecodeIntegers;
  }

  lemma TwoIntegers(typ: nat, a: nat, b: nat, rest: seq<byte>)
    requires typ in {0x05, 0x11, 0x15} && Fits(a) && Fits(b)
    ensures DecodeFrame((V(typ) + (V(a) + V(b))) + rest)
         == Done(if typ == 0x05 then StopSending(a, b)
                 else if typ == 0x11 then MaxStreamData(a, b)
                 else StreamDataBlocked(a, b), rest)
  {
    hide ParseVarint, V, WellFormed;
    var body := V(a) + V(b);
    ReadVarint(typ, body, rest);
    ReadVarint(a, V(b), rest);
    ReadLast(b, rest);
    assert DecodeFrame((V(typ) + body) + rest) == DecodeIntegers(typ, body + rest);
  }

  lemma ZeroRun(n: nat, rest: seq<byte>)
    requires rest == [] || rest[0] != 0
    ensures LeadingZeros(Zeros(n) + rest) == n && (Zeros(n) + rest)[n..] == rest
  {
    var k := LeadingZeros(Zeros(n) + rest);
    assert forall i :: 0 <= i < n ==> (Zeros(n) + rest)[i] == 0;
    assert rest != [] ==> (Zeros(n) + rest)[n] != 0;
  }

  lemma PaddingRoundTrip(n: nat, rest: seq<byte>)
    requires n > 0 && (rest == [] || rest[0] != 0)
    ensures DecodeFrame(Encode(Padding(n)) + rest) == Done(Padding(n), rest)
  {
    assert V(0) == [0] by { EncodeVarint1(0); }
    hide ParseVarint, V, LeadingZeros;
    assert Zeros(n) + rest == V(0) + (Zeros(n - 1) + rest);
    ReadLast(0, Zeros(n - 1) + rest);
    ZeroRun(n - 1, rest);
  }

  lemma BareRoundTrip(f: Frame, rest: seq<byte>)
    requires f.Ping? || f.HandshakeDone?
    ensures DecodeFrame(Encode(f) + rest) == Done(f, rest)
  {
    hide ParseVarint, V;
    ReadLast(if f.Ping? then 0x01 else 0x1e, rest);
  }

  /** Every well-formed frame is read back exactly, whatever follows it. */
  lemma RoundTrip(f: Frame, rest: seq<byte>)
    requires WellFormed(f)
    requires f.Padding? ==> rest == [] || rest[0] != 0
    ensures DecodeFrame(Encode(f) + rest) == Done(f, rest)
  {
    hide DecodeFrame, Encode;
    match f
    case Padding(n) => PaddingRoundTrip(n, rest);
    case Ping => BareRoundTrip(f, rest);
    case HandshakeDone => BareRoundTrip(f, rest);
    case Ack(_, _, _, _) => AckRoundTrip(f, rest);
    case Stream(_, _, _, _) => StreamRoundTrip(f, rest);
    case NewConnectionId(_, _, _, _) => NewConnectionIdRoundTrip(f, rest);
    case ConnectionClose(_, _, _, _) => CloseRoundTrip(f, rest);
    case Crypto(_, _) => BytesRoundTrip(f, rest);
    case NewToken(_) => BytesRoundTrip(f, rest);
    case Datagram(_) => BytesRoundTrip(f, rest);
    case PathChallenge(_) => BytesRoundTrip(f, rest);
    case PathResponse(_) => BytesRoundTrip(f, rest);
    case _ => IntegersRoundTrip(f, rest);
  }

  /**
   * Normal form: whatever bytes a frame was read from (ECN counts, no length field,
   * over-long integers), re-encoding it and reading again gives the same frame and
   * leaves the same rest.
   */
  lemma DecodeEncodeDecode(s: seq<byte>)
    requires |s| <= VARINT_MAX && DecodeFrame(s).Done?
    ensures var Done(f, rest) := DecodeFrame(s); DecodeFrame(Encode(f) + rest) == DecodeFrame(s)
  {
    var Done(f, rest) := DecodeFrame(s);
    RoundTrip(f, rest);
  }

  // -------------------------------------------------------------------- bounds

  predicate Suffix(r: seq<byte>, s: seq<byte>) {
    |r| <= |s| && r == s[|s| - |r|..]
  }

  lemma SuffixTrans(r: seq<byte>, m: seq<byte>, s: seq<byte>)
    requires Suffix(r, m) && Suffix(m, s)
    ensures Suffix(r, s)
  {
    assert s[|s| - |m|..][|m| - |r|..] == s[|s| - |r|..];
  }

  lemma ThenVarint(m: seq<byte>, s: seq<byte>)
    requires Suffix(m, s) && ParseVarint(m).Done?
    ensures Suffix(ParseVarint(m).rest, s)
  {
    SuffixTrans(ParseVarint(m).rest, m, s);
  }

  lemma ThenBytes(m: seq<byte>, len: nat, s: seq<byte>)
    requires Suffix(m, s) && ParseBytes(m, len).Done?
    ensures Suffix(ParseBytes(m, len).rest, s)
  {
    SuffixTrans(m[len..], m, s);
  }

  lemma ThenCounted(m: seq<byte>, s: seq<byte>)
    requires Suffix(m, s) && ParseCounted(m).Done?
    ensures Suffix(ParseCounted(m).rest, s)
  {
    hide ParseVarint, Suffix, ParseBytes;
    ThenVarint(m, s);
    ThenBytes(ParseVarint(m).rest, ParseVarint(m).value, s);
  }

  lemma {:induction false} ThenRanges(m: seq<byte>, count: nat, s: seq<byte>)
    requires Suffix(m, s) && ParseRanges(m, count).Done?
    ensures Suffix(ParseRanges(m, count).rest, s)
    decreases count
  {
    hide ParseVarint, Suffix;
    if count > 0 {
      ThenVarint(m, s);
      var s1 := ParseVarint(m).rest;
      ThenVarint(s1, s);
      ThenRanges(ParseVarint(s1).rest, count - 1, s);
    }
  }

  lemma AckSuffix(typ: nat, s: seq<byte>)
    requires DecodeAck(typ, s).Done?
    ensures Suffix(DecodeAck(typ, s).rest, s)
  {
    assert Suffix(s, s);
    hide ParseVarint, Suffix, ParseRanges;
    var s1 := ParseVarint(s).rest;
    var s2 := ParseVarint(s1).rest;
    var s3 := ParseVarint(s2).rest;
    var s4 := ParseVarint(s3).rest;
    ThenVarint(s, s);
    ThenVarint(s1, s);
    ThenVarint(s2, s);
    ThenVarint(s3, s);
    ThenRanges(s4, ParseVarint(s2).value, s);
    if typ == 0x03 {
      var s5 := ParseRanges(s4, ParseVarint(s2).value).rest;
      var s6 := ParseVarint(s5).rest;
      ThenVarint(s5, s);
      ThenVarint(s6, s);
      ThenVarint(ParseVarint(s6).rest, s);
    }
  }

  lemma StreamSuffix(typ: nat, s: seq<byte>)
    requires DecodeStream(typ, s).Done?
    ensures Suffix(DecodeStream(typ, s).rest, s)
  {
    assert Suffix(s, s);
    hide ParseVarint, Suffix, ParseCounted, ParseBytes;
    ThenVarint(s, s);
    var s1 := ParseVarint(s).rest;
    var s2 := if typ / 4 % 2 != 0 then ParseVarint(s1).rest else s1;
    if typ / 4 % 2 != 0 {
      ThenVarint(s1, s);
    }
    if typ / 2 % 2 != 0 {
      ThenCounted(s2, s);
    } else {
      ThenBytes(s2, |s2|, s);
    }
  }

  lemma NewConnectionIdSuffix(s: seq<byte>)
    requires DecodeNewConnectionId(s).Done?
    ensures Suffix(DecodeNewConnectionId(s).rest, s)
  {
    assert Suffix(s, s);
    hide ParseVarint, Suffix, ParseBytes;
    ThenVarint(s, s);
    var s1 := ParseVarint(s).rest;
    ThenVarint(s1, s);
    var s2 := ParseVarint(s1).rest;
    assert ParseBytes(s2, 1) == Done(s2[..1], s2[1..]) by {
      ReadBytes(s2[..1], s2[1..], []);
      assert s2[..1] + s2[1..] + [] == s2 && s2[1..] + [] == s2[1..];
    }
    ThenBytes(s2, 1, s);
    var s3 := s2[1..];
    ThenBytes(s3, s2[0], s);
    ThenBytes(ParseBytes(s3, s2[0]).rest, 16, s);
  }

  lemma CloseSuffix(typ: nat, s: seq<byte>)
    requires DecodeClose(typ, s).Done?
    ensures Suffix(DecodeClose(typ, s).rest, s)
  {
    assert Suffix(s, s);
    hide ParseVarint, Suffix, ParseCounted;
    ThenVarint(s, s);
    var s1 := ParseVarint(s).rest;
    if typ == 0x1c {
      ThenVarint(s1, s);
      ThenCounted(ParseVarint(s1).rest, s);
    } else {
      ThenCounted(s1, s);
    }
  }

  lemma IntegersSuffix(typ: nat, s: seq<byte>)
    requires typ in {0x04, 0x05, 0x10, 0x11, 0x12, 0x13, 0x14, 0x15, 0x16, 0x17, 0x19}
    requires DecodeIntegers(typ, s).Done?
    ensures Suffix(DecodeIntegers(typ, s).rest, s)
  {
    assert Suffix(s, s);
    hide ParseVarint, Suffix;
    ThenVarint(s, s);
    if typ in {0x04, 0x05, 0x11, 0x15} {
      var s1 := ParseVarint(s).rest;
      ThenVarint(s1, s);
      if typ == 0x04 {
        ThenVarint(ParseVarint(s1).rest, s);
      }
    }
  }

  lemma BodySuffix(typ: nat, s: seq<byte>)
    requires DecodeBody(typ, s).Done?
    ensures Suffix(DecodeBody(typ, s).rest, s)
  {
    assert Suffix(s, s) && Suffix([], s) && Suffix(s[LeadingZeros(s)..], s);
    hide Suffix, LeadingZeros, DecodeBody;
    if 0x02 <= typ <= 0x19 {
      FirstSuffix(typ, s);
    } else {
      LastSuffix(typ, s);
    }
  }

  lemma FirstSuffix(typ: nat, s: seq<byte>)
    requires DecodeBody(typ, s).Done? && Suffix(s, s) && 0x02 <= typ <= 0x19
    ensures Suffix(DecodeBody(typ, s).rest, s)
  {
    hide ParseVarint, Suffix, DecodeAck, DecodeStream, DecodeNewConnectionId, DecodeClose, DecodeIntegers,
         DecodeNewToken, ParseCounted, ParseBytes, LeadingZeros, WellFormed;
    if typ == 0x02 || typ == 0x03 {
      AckSuffix(typ, s);
    } else if typ == 0x06 {
      ThenVarint(s, s);
      ThenCounted(ParseVarint(s).rest, s);
    } else if typ == 0x07 {
      NewTokenSuffix(s);
    } else if 0x08 <= typ <= 0x0f {
      StreamSuffix(typ, s);
    } else if typ == 0x18 {
      NewConnectionIdSuffix(s);
    } else {
      IntegersSuffix(typ, s);
    }
  }

  lemma NewTokenSuffix(s: seq<byte>)
    requires DecodeNewToken(s).Done? && Suffix(s, s)
    ensures Suffix(DecodeNewToken(s).rest, s)
  {
    hide ParseVarint, Suffix, ParseBytes;
    ThenVarint(s, s);
    ThenBytes(ParseVarint(s).rest, ParseVarint(s).value, s);
  }

  lemma LastSuffix(typ: nat, s: seq<byte>)
    requires DecodeBody(typ, s).Done? && Suffix(s, s) && Suffix([], s) && Suffix(s[LeadingZeros(s)..], s)
    requires !(0x02 <= typ <= 0x19)
    ensures Suffix(DecodeBody(typ, s).rest, s)
  {
    hide ParseVarint, Suffix, DecodeAck, DecodeStream, DecodeNewConnectionId, DecodeClose, DecodeIntegers,
         DecodeNewToken, ParseCounted, ParseBytes, LeadingZeros, WellFormed;
    if typ == 0x1a || typ == 0x1b {
      ThenBytes(s, 8, s);
    } else if typ == 0x1c || typ == 0x1d {
      CloseSuffix(typ, s);
    } else if typ == 0x31 {
      ThenCounted(s, s);
    }
  }

  /** The decoder never reads past the end: what it leaves is a proper suffix of its input. */
  lemma DecodeSuffix(s: seq<byte>)
    requires DecodeFrame(s).Done?
    ensures Suffix(DecodeFrame(s).rest, s) && DecodeFrame(s).rest != s
  {
    assert Suffix(s, s);
    hide ParseVarint, DecodeBody, Suffix;
    ThenVarint(s, s);
    var Done(typ, s1) := ParseVarint(s);
    BodySuffix(typ, s1);
    SuffixTrans(DecodeFrame(s).rest, s1, s);
  }

  // ------------------------------------------------------------------- payloads

  function EncodeAll(fs: seq<Frame>): (s: seq<byte>) {
    if fs == [] then [] else Encode(fs[0]) + EncodeAll(fs[1..])
  }

  /** The receive loop over a decrypted payload. */
  function DecodeAll(s: seq<byte>): (r: Parse<seq<Frame>>)
    decreases |s|
  {
    hide DecodeFrame;
    if s == [] then Done([], [])
    else
      var (f, rest) :- DecodeFrame(s);
      var (fs, end) :- DecodeAll(rest);
      Done([f] + fs, end)
  }

  predicate AllWellFormed(fs: seq<Frame>) {
    forall i :: 0 <= i < |fs| ==> WellFormed(fs[i])
  }

  predicate NoAdjacentPadding(fs: seq<Frame>) {
    forall i :: 0 <= i < |fs| - 1 ==> !(fs[i].Padding? && fs[i + 1].Padding?)
  }

  /** Adjacent PADDING frames are one run on the wire. */
  function MergePadding(fs: seq<Frame>): (r: seq<Frame>)
    decreases |fs|
  {
    if |fs| <= 1 then fs
    else if fs[0].Padding? && fs[1].Padding? then
      MergePadding([Padding(fs[0].count + fs[1].count)] + fs[2..])
    else [fs[0]] + MergePadding(fs[1..])
  }

  lemma FirstByteNonZero(f: Frame)
    requires WellFormed(f) && !f.Padding?
    ensures Encode(f) != [] && Encode(f)[0] != 0
  {
    TypeOctet();
    hide V, Counted, EncodeRanges;
  }

  lemma TypeOctet()
    ensures forall typ: nat, body: seq<byte> {:trigger V(typ) + body} ::
              typ < 0x40 ==> V(typ) + body != [] && (V(typ) + body)[0] == typ
    ensures V(0x01) == [0x01] && V(0x1e) == [0x1e]
  {
    forall typ: nat, body: seq<byte> | typ < 0x40
      ensures V(typ) + body != [] && (V(typ) + body)[0] == typ
    {
      EncodeVarint1(typ);
    }
    EncodeVarint1(0x01);
    EncodeVarint1(0x1e);
  }

  lemma {:induction false} NormalListRoundTrip(fs: seq<Frame>)
    requires AllWellFormed(fs) && NoAdjacentPadding(fs)
    ensures DecodeAll(EncodeAll(fs)) == Done(fs, [])
  {
    hide DecodeFrame, Encode, WellFormed;
    if fs != [] {
      var f, tail := fs[0], fs[1..];
      var rest := EncodeAll(tail);
      NormalListRoundTrip(tail);
      if tail != [] && !tail[0].Padding? {
        FirstByteNonZero(tail[0]);
      }
      RoundTrip(f, rest);
      assert EncodeAll(fs) != [] by {
        if !f.Padding? {
          FirstByteNonZero(f);
        }
      }
      assert [f] + tail == fs;
    }
  }

  lemma PaddingSum(a: nat, b: nat)
    requires WellFormed(Padding(a)) && WellFormed(Padding(b))
    ensures WellFormed(Padding(a + b))
  {
  }

  lemma {:induction false} MergeNormal(fs: seq<Frame>)
    requires AllWellFormed(fs)
    ensures AllWellFormed(MergePadding(fs)) && NoAdjacentPadding(MergePadding(fs))
    ensures fs != [] ==> MergePadding(fs) != [] && MergePadding(fs)[0].Padding? == fs[0].Padding?
    decreases |fs|
  {
    hide WellFormed;
    if |fs| <= 1 {
    } else if fs[0].Padding? && fs[1].Padding? {
      PaddingSum(fs[0].count, fs[1].count);
      MergeNormal([Padding(fs[0].count + fs[1].count)] + fs[2..]);
    } else {
      MergeNormal(fs[1..]);
    }
  }

  lemma EncodePadding(n: nat)
    ensures Encode(Padding(n)) == Zeros(n)
  {
  }

  lemma {:induction false} MergeSameBytes(fs: seq<Frame>)
    ensures EncodeAll(MergePadding(fs)) == EncodeAll(fs)
    decreases |fs|
  {
    hide Encode;
    if |fs| <= 1 {
    } else if fs[0].Padding? && fs[1].Padding? {
      var a, b := fs[0].count, fs[1].count;
      var merged := [Padding(a + b)] + fs[2..];
      MergeSameBytes(merged);
      EncodePadding(a);
      EncodePadding(b);
      EncodePadding(a + b);
      assert Zeros(a) + Zeros(b) == Zeros(a + b);
      assert merged[1..] == fs[2..] && fs[1..][1..] == fs[2..];
      assert EncodeAll(fs) == Zeros(a) + (Zeros(b) + EncodeAll(fs[2..]));
      assert EncodeAll(merged) == Zeros(a + b) + EncodeAll(fs[2..]);
    } else {
      MergeSameBytes(fs[1..]);
      var r := [fs[0]] + MergePadding(fs[1..]);
      assert r[1..] == MergePadding(fs[1..]);
    }
  }

  lemma {:induction false} MergeShortens(fs: seq<Frame>)
    ensures |MergePadding(fs)| <= |fs|
    ensures NoAdjacentPadding(fs) ==> MergePadding(fs) == fs
    ensures !NoAdjacentPadding(fs) ==> |MergePadding(fs)| < |fs|
    decreases |fs|
  {
    if |fs| <= 1 {
    } else if fs[0].Padding? && fs[1].Padding? {
      MergeShortens([Padding(fs[0].count + fs[1].count)] + fs[2..]);
    } else {
      MergeShortens(fs[1..]);
      assert [fs[0]] + fs[1..] == fs;
      if !NoAdjacentPadding(fs) {
        var i :| 0 <= i < |fs| - 1 && fs[i].Padding? && fs[i + 1].Padding?;
        assert fs[1..][i - 1].Padding? && fs[1..][i].Padding?;
      }
    }
  }

  /** What any list of frames becomes after a trip over the wire. */
  lemma ListRoundTrip(fs: seq<Frame>)
    requires AllWellFormed(fs)
    ensures DecodeAll(EncodeAll(fs)) == Done(MergePadding(fs), [])
    ensures DecodeAll(EncodeAll(fs)) == Done(fs, []) <==> NoAdjacentPadding(fs)
  {
    MergeNormal(fs);
    MergeSameBytes(fs);
    MergeShortens(fs);
    NormalListRoundTrip(MergePadding(fs));
  }

  lemma {:induction false} DecodeAllWellFormed(s: seq<byte>)
    requires |s| <= VARINT_MAX && DecodeAll(s).Done?
    ensures AllWellFormed(DecodeAll(s).value)
    decreases |s|
  {
    if s != [] {
      DecodeAllWellFormed(DecodeFrame(s).rest);
    }
  }

  /**
   * A whole payload is already in normal form if and only if no two PADDING frames were
   * read next to each other.
   */
  lemma PayloadNormalForm(s: seq<byte>)
    requires |s| <= VARINT_MAX && DecodeAll(s).Done?
    ensures var fs := DecodeAll(s).value;
            DecodeAll(EncodeAll(fs)) == DecodeAll(s) <==> NoAdjacentPadding(fs)
  {
    DecodeAllWellFormed(s);
    DecodeAllConsumes(s);
    ListRoundTrip(DecodeAll(s).value);
  }

  lemma {:induction false} DecodeAllConsumes(s: seq<byte>)
    requires DecodeAll(s).Done?
    ensures DecodeAll(s).rest == []
    decreases |s|
  {
    if s != [] {
      DecodeAllConsumes(DecodeFrame(s).rest);
    }
  }

  /** The exception is real: an over-long PADDING type splits one run into two frames. */
  lemma OverlongPaddingSplits()
    ensures DecodeAll([0x00, 0x40, 0x00]) == Done([Padding(1), Padding(1)], [])
    ensures DecodeAll(EncodeAll([Padding(1), Padding(1)])) == Done([Padding(2)], [])
  {
    var s: seq<byte> := [0x00, 0x40, 0x00];
    var t: seq<byte> := [0x40, 0x00];
    assert s[1..] == t && t[2..] == [];
    assert [s[0] % 64] + s[1..1] == [0];
    assert FromBigEndian([0][..0]) == 0 && FromBigEndian([0]) == 0;
    assert ParseVarint(s) == Done(0, t);
    assert DecodeFrame(s) == Done(Padding(1), t) by {
      assert LeadingZeros(t) == 0 && t[0..] == t;
    }
    assert [t[0] % 64] + t[1..2] == [0, 0];
    assert [0, 0][..1] == [0] && FromBigEndian([0, 0]) == 0;
    assert ParseVarint(t) == Done(0, []);
    assert DecodeFrame(t) == Done(Padding(1), []);
    assert DecodeAll(t) == Done([Padding(1)], []) by {
      assert DecodeAll([]) == Done([], []);
      assert [Padding(1)] + [] == [Padding(1)];
    }
    assert [Padding(1)] + [Padding(1)] == [Padding(1), Padding(1)];
    ListRoundTrip([Padding(1), Padding(1)]);
    var two := [Padding(1), Padding(1)];
    assert two[2..] == [] && [Padding(2)] + two[2..] == [Padding(2)];
    assert MergePadding(two) == MergePadding([Padding(2)]);
  }
}
