/**
 * Frames and their wire form (section 19 of RFC 9000; DATAGRAM is RFC 9221). `Encode`
 * and `DecodeFrame` specify the methods of module FrameIO that work on buffers.
 */
module Frames {
  import opened Common
  import opened Coding

  /** One further range of an ACK frame, below the ranges before it. */
  datatype AckRange = AckRange(gap: nat, range: nat)

  datatype Direction = Bidirectional | Unidirectional

  datatype Frame =
    | Padding(count: nat)
    | Ping
    | Ack(largest: nat, delay: nat, firstRange: nat, ranges: seq<AckRange>)
    | ResetStream(id: nat, errorCode: nat, finalSize: nat)
    | StopSending(id: nat, errorCode: nat)
    | Crypto(offset: nat, data: seq<byte>)
    | NewToken(token: seq<byte>)
    | Stream(id: nat, offset: nat, fin: bool, data: seq<byte>)
    | MaxData(max: nat)
    | MaxStreamData(id: nat, max: nat)
    | MaxStreams(dir: Direction, max: nat)
    | DataBlocked(limit: nat)
    | StreamDataBlocked(id: nat, limit: nat)
    | StreamsBlocked(dir: Direction, limit: nat)
    | NewConnectionId(number: nat, retirePriorTo: nat, cid: seq<byte>, token: seq<byte>)
    | RetireConnectionId(number: nat)
    | PathChallenge(data: seq<byte>)
    | PathResponse(data: seq<byte>)
    | ConnectionClose(errorCode: nat, frameType: Option<nat>, application: bool, reason: seq<byte>)
    | HandshakeDone
    | Datagram(data: seq<byte>)
    | Unsupported(typ: nat)

  const MAX_STREAMS_LIMIT: nat := 0x1000_0000_0000_0000

  predicate Fits(x: nat) { x <= VARINT_MAX }

  predicate RangesFit(ranges: seq<AckRange>) {
    forall i :: 0 <= i < |ranges| ==> Fits(ranges[i].gap) && Fits(ranges[i].range)
  }

  /** The frames that have a wire form of their own. */
  predicate WellFormed(f: Frame) {
    match f
    case Padding(n) => n > 0
    case Ping => true
    case Ack(largest, delay, first, ranges) =>
      Fits(largest) && Fits(delay) && Fits(first) && Fits(|ranges|) && RangesFit(ranges)
    case ResetStream(id, code, size) => Fits(id) && Fits(code) && Fits(size)
    case StopSending(id, code) => Fits(id) && Fits(code)
    case Crypto(offset, data) => Fits(offset) && Fits(|data|)
    case NewToken(token) => token != [] && Fits(|token|)
    case Stream(id, offset, _, data) => Fits(id) && Fits(offset) && Fits(|data|)
    case MaxData(max) => Fits(max)
    case MaxStreamData(id, max) => Fits(id) && Fits(max)
    case MaxStreams(_, max) => max <= MAX_STREAMS_LIMIT
    case DataBlocked(limit) => Fits(limit)
    case StreamDataBlocked(id, limit) => Fits(id) && Fits(limit)
    case StreamsBlocked(_, limit) => Fits(limit)
    case NewConnectionId(n, retire, cid, token) =>
      Fits(n) && retire <= n && 1 <= |cid| <= 20 && |token| == 16
    case RetireConnectionId(n) => Fits(n)
    case PathChallenge(data) => |data| == 8
    case PathResponse(data) => |data| == 8
    case ConnectionClose(code, frameType, application, reason) =>
      && Fits(code) && Fits(|reason|) && application == frameType.None?
      && (frameType.Some? ==> Fits(frameType.value))
    case HandshakeDone => true
    case Datagram(data) => Fits(|data|)
    case Unsupported(_) => false
  }

  // ------------------------------------------------------------------- encoding

  function V(x: nat): (s: seq<byte>)
    ensures s != []
  {
    EncodeVarint(x)
  }

  function Zeros(n: nat): (s: seq<byte>)
    ensures |s| == n && forall i :: 0 <= i < n ==> s[i] == 0
  {
    seq(n, i => 0)
  }

  function EncodeRanges(ranges: seq<AckRange>): (s: seq<byte>) {
    if ranges == [] then []
    else V(ranges[0].gap) + (V(ranges[0].range) + EncodeRanges(ranges[1..]))
  }

  /** A byte string behind its own length. */
  function Counted(data: seq<byte>): (s: seq<byte>) { V(|data|) + data }

  function Encode(f: Frame): (s: seq<byte>) {
    match f
    case Padding(n) => Zeros(n)
    case Ping => V(0x01)
    case Ack(largest, delay, first, ranges) =>
      V(0x02) + (V(largest) + (V(delay) + (V(|ranges|) + (V(first) + EncodeRanges(ranges)))))
    case ResetStream(id, code, size) => V(0x04) + (V(id) + (V(code) + V(size)))
    case StopSending(id, code) => V(0x05) + (V(id) + V(code))
    case Crypto(offset, data) => V(0x06) + (V(offset) + Counted(data))
    case NewToken(token) => V(0x07) + Counted(token)
    case Stream(id, offset, fin, data) =>
      V(if fin then 0x0f else 0x0e) + (V(id) + (V(offset) + Counted(data)))
    case MaxData(max) => V(0x10) + V(max)
    case MaxStreamData(id, max) => V(0x11) + (V(id) + V(max))
    case MaxStreams(dir, max) => V(if dir.Unidirectional? then 0x13 else 0x12) + V(max)
    case DataBlocked(limit) => V(0x14) + V(limit)
    case StreamDataBlocked(id, limit) => V(0x15) + (V(id) + V(limit))
    case StreamsBlocked(dir, limit) => V(if dir.Unidirectional? then 0x17 else 0x16) + V(limit)
    case NewConnectionId(n, retire, cid, token) =>
      V(0x18) + (V(n) + (V(retire) + ([|cid| % 256] + (cid + token))))
    case RetireConnectionId(n) => V(0x19) + V(n)
    case PathChallenge(data) => V(0x1a) + data
    case PathResponse(data) => V(0x1b) + data
    case ConnectionClose(code, frameType, application, reason) =>
      if application then V(0x1d) + (V(code) + Counted(reason))
      else V(0x1c) + (V(code) + (V(if frameType.Some? then frameType.value else 0) + Counted(reason)))
    case HandshakeDone => V(0x1e)
    case Datagram(data) => V(0x31) + Counted(data)
    case Unsupported(_) => []
  }

  // ------------------------------------------------------------------- decoding

  function LeadingZeros(s: seq<byte>): (n: nat)
    ensures n <= |s| && (forall i :: 0 <= i < n ==> s[i] == 0)
    ensures n < |s| ==> s[n] != 0
  {
    if s == [] || s[0] != 0 then 0 else 1 + LeadingZeros(s[1..])
  }

  function ParseRanges(s: seq<byte>, count: nat): (r: Parse<seq<AckRange>>)
    ensures r.Done? ==> |r.rest| <= |s|
    ensures r.Done? ==> |r.value| == count && RangesFit(r.value)
    decreases count
  {
    if count == 0 then Done([], s)
    else
      var (gap, s1) :- ParseVarint(s);
      var (range, s2) :- ParseVarint(s1);
      var (ranges, s3) :- ParseRanges(s2, count - 1);
      Done([AckRange(gap, range)] + ranges, s3)
  }

  lemma ParseRangesStep(s: seq<byte>, count: nat)
    requires count > 0
    ensures match ParseVarint(s)
            case Fail(e) => ParseRanges(s, count) == Fail(e)
            case Done(gap, s1) =>
              match ParseVarint(s1)
              case Fail(e) => ParseRanges(s, count) == Fail(e)
              case Done(range, s2) =>
                match ParseRanges(s2, count - 1)
                case Fail(e) => ParseRanges(s, count) == Fail(e)
                case Done(v, rest) => ParseRanges(s, count) == Done([AckRange(gap, range)] + v, rest)
  {
    hide ParseVarint;
  }

  function ParseCounted(s: seq<byte>): (r: Parse<seq<byte>>)
    ensures r.Done? ==> |r.rest| < |s| && Fits(|r.value|)
  {
    var (len, s1) :- ParseVarint(s);
    ParseBytes(s1, len)
  }

  function DecodeAck(typ: nat, s: seq<byte>): (r: Parse<Frame>)
    ensures r.Done? ==> |r.rest| <= |s|
    ensures r.Done? ==> r.value.Ack? && WellFormed(r.value)
  {
    var (largest, s1) :- ParseVarint(s);
    var (delay, s2) :- ParseVarint(s1);
    var (count, s3) :- ParseVarint(s2);
    var (first, s4) :- ParseVarint(s3);
    var (ranges, s5) :- ParseRanges(s4, count);
    var f := Ack(largest, delay, first, ranges);
    if typ == 0x03 then
      var (_, s6) :- ParseVarint(s5);
      var (_, s7) :- ParseVarint(s6);
      var (_, s8) :- ParseVarint(s7);
      Done(f, s8)
    else Done(f, s5)
  }

  /** The type's low bits say whether an offset, a length and the FIN are present. */
  function DecodeStream(typ: nat, s: seq<byte>): (r: Parse<Frame>)
    ensures r.Done? ==> |r.rest| <= |s|
    ensures r.Done? && |s| <= VARINT_MAX ==> r.value.Stream? && WellFormed(r.value)
  {
    var (id, s1) :- ParseVarint(s);
    var (offset, s2) :- if typ / 4 % 2 != 0 then ParseVarint(s1) else Done(0, s1);
    var fin := typ % 2 != 0;
    var (data, s3) :- if typ / 2 % 2 != 0 then ParseCounted(s2) else ParseBytes(s2, |s2|);
    Done(Stream(id, offset, fin, data), s3)
  }

  function DecodeNewConnectionId(s: seq<byte>): (r: Parse<Frame>)
    ensures r.Done? ==> |r.rest| <= |s|
    ensures r.Done? ==> r.value.NewConnectionId? && WellFormed(r.value)
  {
    var (n, s1) :- ParseVarint(s);
    var (retire, s2) :- ParseVarint(s1);
    if retire > n then Fail(Malformed("NEW_CONNECTION_ID: retire_prior_to > seq"))
    else
      var (len, s3) :- ParseU8(s2);
      if len == 0 || len > 20 then Fail(Malformed("NEW_CONNECTION_ID: invalid CID length"))
      else
        var (cid, s4) :- ParseBytes(s3, len);
        var (token, s5) :- ParseBytes(s4, 16);
        Done(NewConnectionId(n, retire, cid, token), s5)
  }

  function DecodeClose(typ: nat, s: seq<byte>): (r: Parse<Frame>)
    ensures r.Done? ==> |r.rest| <= |s|
    ensures r.Done? ==> r.value.ConnectionClose? && WellFormed(r.value)
  {
    var (code, s1) :- ParseVarint(s);
    if typ == 0x1c then
      var (frameType, s2) :- ParseVarint(s1);
      var (reason, s3) :- ParseCounted(s2);
      Done(ConnectionClose(code, Some(frameType), false, reason), s3)
    else
      var (reason, s2) :- ParseCounted(s1);
      Done(ConnectionClose(code, None, true, reason), s2)
  }

  function DecodeNewToken(s: seq<byte>): (r: Parse<Frame>)
    ensures r.Done? ==> |r.rest| <= |s|
    ensures r.Done? ==> r.value.NewToken? && WellFormed(r.value)
  {
    var (len, s1) :- ParseVarint(s);
    if len == 0 then Fail(Malformed("NEW_TOKEN empty"))
    else
      var (token, s2) :- ParseBytes(s1, len);
      Done(NewToken(token), s2)
  }

  /** Frames whose fields are one, two or three integers. */
  function DecodeIntegers(typ: nat, s: seq<byte>): (r: Parse<Frame>)
    requires typ in {0x04, 0x05, 0x10, 0x11, 0x12, 0x13, 0x14, 0x15, 0x16, 0x17, 0x19}
    ensures r.Done? ==> |r.rest| <= |s|
    ensures r.Done? ==> WellFormed(r.value) && !r.value.Padding?
  {
    var (a, s1) :- ParseVarint(s);
    if typ == 0x10 then Done(MaxData(a), s1)
    else if typ == 0x12 || typ == 0x13 then
      if a > MAX_STREAMS_LIMIT then Fail(Malformed("MAX_STREAMS exceeds 2^60"))
      else Done(MaxStreams(if typ == 0x13 then Unidirectional else Bidirectional, a), s1)
    else if typ == 0x14 then Done(DataBlocked(a), s1)
    else if typ == 0x16 || typ == 0x17 then
      Done(StreamsBlocked(if typ == 0x17 then Unidirectional else Bidirectional, a), s1)
    else if typ == 0x19 then Done(RetireConnectionId(a), s1)
    else
      var (b, s2) :- ParseVarint(s1);
      if typ == 0x05 then Done(StopSending(a, b), s2)
      else if typ == 0x11 then Done(MaxStreamData(a, b), s2)
      else if typ == 0x15 then Done(StreamDataBlocked(a, b), s2)
      else
        var (c, s3) :- ParseVarint(s2);
        Done(ResetStream(a, b, c), s3)
  }

  function DecodeBody(typ: nat, s: seq<byte>): (r: Parse<Frame>)
    ensures r.Done? ==> |r.rest| <= |s|
    ensures r.Done? && |s| <= VARINT_MAX ==> WellFormed(r.value)
    ensures r.Done? && r.value.Padding? ==> r.rest == [] || r.rest[0] != 0
  {
    if typ == 0x00 then
      var n := LeadingZeros(s);
      Done(Padding(1 + n), s[n..])
    else if typ == 0x01 then Done(Ping, s)
    else if typ == 0x02 || typ == 0x03 then DecodeAck(typ, s)
    else if typ == 0x06 then
      var (offset, s1) :- ParseVarint(s);
      var (data, s2) :- ParseCounted(s1);
      Done(Crypto(offset, data), s2)
    else if typ == 0x07 then DecodeNewToken(s)
    else if 0x08 <= typ <= 0x0f then DecodeStream(typ, s)
    else if typ == 0x18 then DecodeNewConnectionId(s)
    else if 0x04 <= typ <= 0x05 || 0x10 <= typ <= 0x17 || typ == 0x19 then DecodeIntegers(typ, s)
    else if typ == 0x1a then
      var (data, s1) :- ParseBytes(s, 8);
      Done(PathChallenge(data), s1)
    else if typ == 0x1b then
      var (data, s1) :- ParseBytes(s, 8);
      Done(PathResponse(data), s1)
    else if typ == 0x1c || typ == 0x1d then DecodeClose(typ, s)
    else if typ == 0x1e then Done(HandshakeDone, s)
    else if typ == 0x30 then Done(Datagram(s), [])
    else if typ == 0x31 then
      var (data, s1) :- ParseCounted(s);
      Done(Datagram(data), s1)
    else Fail(Malformed("unknown frame type"))
  }

  /**
   * Reads one frame. On any input at all it makes progress, yields only well-formed
   * frames, and a PADDING run takes every zero octet that follows it.
   */
  function DecodeFrame(s: seq<byte>): (r: Parse<Frame>)
    ensures r.Done? ==> |r.rest| < |s|
    ensures r.Done? && |s| <= VARINT_MAX ==> WellFormed(r.value)
    ensures r.Done? && r.value.Padding? ==> r.rest == [] || r.rest[0] != 0
  {
    var (typ, s1) :- ParseVarint(s);
    DecodeBody(typ, s1)
  }
}
