/** The frame codec as the transport runs it: appending to a buffer, advancing a cursor. */
module FrameIO {
  import opened Common
  import opened Coding
  import opened Frames

  // ------------------------------------------------------------------- encoding

  method PutCounted(out: Sink, data: seq<byte>)
    modifies out
    ensures out.bytes == old(out.bytes) + Counted(data)
  {
    hide EncodeVarint;
    out.PutVarint(|data|);
    out.Extend(data);
    assert old(out.bytes) + V(|data|) + data == old(out.bytes) + (V(|data|) + data);
  }

  method PutTwo(out: Sink, a: nat, b: nat)
    modifies out
    ensures out.bytes == old(out.bytes) + (V(a) + V(b))
  {
    hide EncodeVarint;
    out.PutVarint(a);
    out.PutVarint(b);
    assert old(out.bytes) + V(a) + V(b) == old(out.bytes) + (V(a) + V(b));
  }

  method PutThree(out: Sink, a: nat, b: nat, c: nat)
    modifies out
    ensures out.bytes == old(out.bytes) + (V(a) + (V(b) + V(c)))
  {
    hide EncodeVarint;
    out.PutVarint(a);
    PutTwo(out, b, c);
    assert old(out.bytes) + V(a) + (V(b) + V(c)) == old(out.bytes) + (V(a) + (V(b) + V(c)));
  }

  method PutAck(out: Sink, f: Frame)
    requires f.Ack?
    modifies out
    ensures out.bytes == old(out.bytes) + Encode(f)
  {
    hide EncodeVarint;
    PutThree(out, 0x02, f.largest, f.delay);
    PutTwo(out, |f.ranges|, f.firstRange);
    ghost var head := V(0x02) + (V(f.largest) + V(f.delay));
    ghost var mid := V(|f.ranges|) + V(f.firstRange);
    assert out.bytes == old(out.bytes) + head + mid;
    ghost var start := out.bytes;
    var i := 0;
    while i < |f.ranges|
      invariant 0 <= i <= |f.ranges|
      invariant out.bytes + EncodeRanges(f.ranges[i..]) == start + EncodeRanges(f.ranges)
    {
      ghost var before := out.bytes;
      PutTwo(out, f.ranges[i].gap, f.ranges[i].range);
      assert f.ranges[i..][1..] == f.ranges[i + 1..];
      ghost var tail := EncodeRanges(f.ranges[i + 1..]);
      assert before + (V(f.ranges[i].gap) + V(f.ranges[i].range)) + tail
          == before + (V(f.ranges[i].gap) + (V(f.ranges[i].range) + tail));
      i := i + 1;
    }
    assert f.ranges[i..] == [];
    AckAssembled(old(out.bytes), f);
    assert out.bytes + [] == out.bytes;
  }

  lemma AckAssembled(old_: seq<byte>, f: Frame)
    requires f.Ack?
    ensures old_ + (V(0x02) + (V(f.largest) + V(f.delay))) + (V(|f.ranges|) + V(f.firstRange)) + EncodeRanges(f.ranges)
         == old_ + Encode(f)
  {
    hide V, EncodeRanges;
    var a, b, c, d, e, r := V(0x02), V(f.largest), V(f.delay), V(|f.ranges|), V(f.firstRange), EncodeRanges(f.ranges);
    assert old_ + (a + (b + c)) + (d + e) + r == old_ + (a + (b + (c + (d + (e + r)))));
  }

  method PutIntegers(out: Sink, f: Frame)
    requires f.ResetStream? || f.StopSending? || f.MaxData? || f.MaxStreamData? || f.MaxStreams?
             || f.DataBlocked? || f.StreamDataBlocked? || f.StreamsBlocked? || f.RetireConnectionId?
    modifies out
    ensures out.bytes == old(out.bytes) + Encode(f)
  {
    hide V, EncodeVarint;
    match f
    case ResetStream(id, code, size) =>
      PutThree(out, 0x04, id, code);
      PutLast(out, size);
      assert (V(0x04) + (V(id) + V(code))) + V(size) == V(0x04) + (V(id) + (V(code) + V(size)));
      assert old(out.bytes) + (V(0x04) + (V(id) + V(code))) + V(size)
          == old(out.bytes) + ((V(0x04) + (V(id) + V(code))) + V(size));
    case StopSending(id, code) => PutThree(out, 0x05, id, code);
    case MaxData(max) => PutTwo(out, 0x10, max);
    case MaxStreamData(id, max) => PutThree(out, 0x11, id, max);
    case MaxStreams(dir, max) => PutTwo(out, if dir == Unidirectional then 0x13 else 0x12, max);
    case DataBlocked(limit) => PutTwo(out, 0x14, limit);
    case StreamDataBlocked(id, limit) => PutThree(out, 0x15, id, limit);
    case StreamsBlocked(dir, limit) => PutTwo(out, if dir == Unidirectional then 0x17 else 0x16, limit);
    case RetireConnectionId(n) => PutTwo(out, 0x19, n);
  }

  method PutLast(out: Sink, a: nat)
    modifies out
    ensures out.bytes == old(out.bytes) + V(a)
  {
    out.PutVarint(a);
  }

  /** Appends a type and then a counted byte string. */
  method PutTagged(out: Sink, tag: nat, data: seq<byte>)
    modifies out
    ensures out.bytes == old(out.bytes) + (V(tag) + Counted(data))
  {
    hide V, Counted;
    PutLast(out, tag);
    PutCounted(out, data);
    assert old(out.bytes) + V(tag) + Counted(data) == old(out.bytes) + (V(tag) + Counted(data));
  }

  method PutStream(out: Sink, f: Frame)
    requires f.Stream?
    modifies out
    ensures out.bytes == old(out.bytes) + Encode(f)
  {
    hide V, Counted;
    var typ := if f.fin then 0x0f else 0x0e;
    PutThree(out, typ, f.id, f.offset);
    PutCounted(out, f.data);
    ghost var a, b, c, d := V(typ), V(f.id), V(f.offset), Counted(f.data);
    assert old(out.bytes) + (a + (b + c)) + d == old(out.bytes) + (a + (b + (c + d)));
  }

  method PutNewConnectionId(out: Sink, f: Frame)
    requires f.NewConnectionId?
    modifies out
    ensures out.bytes == old(out.bytes) + Encode(f)
  {
    hide V;
    PutThree(out, 0x18, f.number, f.retirePriorTo);
    out.Push(|f.cid| % 256);
    out.Extend(f.cid);
    out.Extend(f.token);
    ghost var a, b, c := V(0x18), V(f.number), V(f.retirePriorTo);
    ghost var d: seq<byte> := [|f.cid| % 256];
    assert old(out.bytes) + (a + (b + c)) + d + f.cid + f.token
        == old(out.bytes) + (a + (b + (c + (d + (f.cid + f.token)))));
  }

  method PutClose(out: Sink, f: Frame)
    requires f.ConnectionClose?
    modifies out
    ensures out.bytes == old(out.bytes) + Encode(f)
  {
    hide V, Counted;
    ghost var d := Counted(f.reason);
    if f.application {
      PutTwo(out, 0x1d, f.errorCode);
      PutCounted(out, f.reason);
      assert old(out.bytes) + (V(0x1d) + V(f.errorCode)) + d == old(out.bytes) + (V(0x1d) + (V(f.errorCode) + d));
    } else {
      var frameType := if f.frameType.Some? then f.frameType.value else 0;
      PutThree(out, 0x1c, f.errorCode, frameType);
      PutCounted(out, f.reason);
      ghost var a, b, c := V(0x1c), V(f.errorCode), V(frameType);
      assert old(out.bytes) + (a + (b + c)) + d == old(out.bytes) + (a + (b + (c + d)));
    }
  }

  method PutBytes(out: Sink, f: Frame)
    requires f.Crypto? || f.NewToken? || f.Datagram? || f.PathChallenge? || f.PathResponse?
    modifies out
    ensures out.bytes == old(out.bytes) + Encode(f)
  {
    hide V, Counted;
    match f
    case Crypto(offset, data) =>
      PutLast(out, 0x06);
      PutTagged(out, offset, data);
      assert old(out.bytes) + V(0x06) + (V(offset) + Counted(data))
          == old(out.bytes) + (V(0x06) + (V(offset) + Counted(data)));
    case NewToken(token) => PutTagged(out, 0x07, token);
    case Datagram(data) => PutTagged(out, 0x31, data);
    case PathChallenge(data) =>
      PutLast(out, 0x1a);
      out.Extend(data);
      assert old(out.bytes) + V(0x1a) + data == old(out.bytes) + (V(0x1a) + data);
    case PathResponse(data) =>
      PutLast(out, 0x1b);
      out.Extend(data);
      assert old(out.bytes) + V(0x1b) + data == old(out.bytes) + (V(0x1b) + data);
  }

  /** Appends the wire form of `f`. */
  method EncodeTo(out: Sink, f: Frame)
    modifies out
    ensures out.bytes == old(out.bytes) + Encode(f)
  {
    match f
    case Padding(n) => out.Extend(Zeros(n));
    case Ping => PutLast(out, 0x01);
    case HandshakeDone => PutLast(out, 0x1e);
    case Ack(_, _, _, _) => PutAck(out, f);
    case Stream(_, _, _, _) => PutStream(out, f);
    case NewConnectionId(_, _, _, _) => PutNewConnectionId(out, f);
    case ConnectionClose(_, _, _, _) => PutClose(out, f);
    case Crypto(_, _) => PutBytes(out, f);
    case NewToken(_) => PutBytes(out, f);
    case Datagram(_) => PutBytes(out, f);
    case PathChallenge(_) => PutBytes(out, f);
    case PathResponse(_) => PutBytes(out, f);
    case Unsupported(_) => assert out.bytes + [] == out.bytes;
    case _ => PutIntegers(out, f);
  }

  // ------------------------------------------------------------------- decoding

  method GetCounted(buf: Buf) returns (r: Parse<seq<byte>>)
    requires buf.Valid()
    modifies buf
    ensures buf.Valid() && r == old(ParseCounted(buf.Rest()))
    ensures r.Done? ==> buf.Rest() == r.rest
  {
    hide ParseVarint, ParseBytes;
    var len := buf.GetVarint();
    if len.Fail? {
      return Fail(len.error);
    }
    r := buf.GetBytes(len.value);
  }

  method GetRanges(buf: Buf, count: nat) returns (r: Parse<seq<AckRange>>)
    requires buf.Valid()
    modifies buf
    ensures buf.Valid() && r == old(ParseRanges(buf.Rest(), count))
    ensures r.Done? ==> buf.Rest() == r.rest
  {
    hide ParseVarint, ParseRanges, Resumed;
    ghost var s := buf.Rest();
    var ranges: seq<AckRange> := [];
    ResumedFromStart(ParseRanges(s, count));
    var i := 0;
    while i < count
      invariant 0 <= i <= count && buf.Valid()
      invariant Resumed(ParseRanges(s, count), ranges, ParseRanges(buf.Rest(), count - i))
    {
      ParseRangesStep(buf.Rest(), count - i);
      var gap := buf.GetVarint();
      if gap.Fail? {
        ResumedFails(ParseRanges(s, count), ranges, gap.error);
        return Fail(gap.error);
      }
      var range := buf.GetVarint();
      if range.Fail? {
        ResumedFails(ParseRanges(s, count), ranges, range.error);
        return Fail(range.error);
      }
      ResumedStep(ParseRanges(s, count), ranges, AckRange(gap.value, range.value),
                  ParseRanges(range.rest, count - i - 1));
      ranges := ranges + [AckRange(gap.value, range.value)];
      i := i + 1;
    }
    ResumedDone(s, count, ranges, buf.Rest());
    r := Done(ranges, buf.Rest());
  }

  /** A loop that has already collected `got` continues the parse `whole` with `more`. */
  predicate Resumed(whole: Parse<seq<AckRange>>, got: seq<AckRange>, more: Parse<seq<AckRange>>) {
    match more
    case Fail(e) => whole == Fail(e)
    case Done(v, rest) => whole == Done(got + v, rest)
  }

  lemma ResumedFromStart(whole: Parse<seq<AckRange>>)
    ensures Resumed(whole, [], whole)
  {
    assert whole.Done? ==> [] + whole.value == whole.value;
  }

  lemma ResumedFails(whole: Parse<seq<AckRange>>, got: seq<AckRange>, e: CodecError)
    requires Resumed(whole, got, Fail(e))
    ensures whole == Fail(e)
  {
  }

  lemma ResumedDone(s: seq<byte>, count: nat, got: seq<AckRange>, rest: seq<byte>)
    requires Resumed(ParseRanges(s, count), got, ParseRanges(rest, 0))
    ensures ParseRanges(s, count) == Done(got, rest)
  {
    assert got + [] == got;
  }

  lemma ResumedStep(whole: Parse<seq<AckRange>>, got: seq<AckRange>, r: AckRange, more: Parse<seq<AckRange>>)
    requires match more
             case Fail(e) => Resumed(whole, got, Fail(e))
             case Done(v, rest) => Resumed(whole, got, Done([r] + v, rest))
    ensures Resumed(whole, got + [r], more)
  {
    assert more.Done? ==> got + ([r] + more.value) == got + [r] + more.value;
  }

  method GetAck(buf: Buf, typ: nat) returns (r: Parse<Frame>)
    requires buf.Valid()
    modifies buf
    ensures buf.Valid() && r == old(DecodeAck(typ, buf.Rest()))
    ensures r.Done? ==> buf.Rest() == r.rest
  {
    hide ParseVarint, ParseRanges;
    var largest := buf.GetVarint();
    if largest.Fail? { return Fail(largest.error); }
    var delay := buf.GetVarint();
    if delay.Fail? { return Fail(delay.error); }
    var count := buf.GetVarint();
    if count.Fail? { return Fail(count.error); }
    var first := buf.GetVarint();
    if first.Fail? { return Fail(first.error); }
    var ranges := GetRanges(buf, count.value);
    if ranges.Fail? { return Fail(ranges.error); }
    if typ == 0x03 {
      var ect0 := buf.GetVarint();
      if ect0.Fail? { return Fail(ect0.error); }
      var ect1 := buf.GetVarint();
      if ect1.Fail? { return Fail(ect1.error); }
      var ce := buf.GetVarint();
      if ce.Fail? { return Fail(ce.error); }
    }
    r := Done(Ack(largest.value, delay.value, first.value, ranges.value), buf.Rest());
  }

  method GetStream(buf: Buf, typ: nat) returns (r: Parse<Frame>)
    requires buf.Valid()
    modifies buf
    ensures buf.Valid() && r == old(DecodeStream(typ, buf.Rest()))
    ensures r.Done? ==> buf.Rest() == r.rest
  {
    hide ParseVarint, ParseBytes, ParseCounted;
    var id := buf.GetVarint();
    if id.Fail? { return Fail(id.error); }
    var offset: nat := 0;
    if typ / 4 % 2 != 0 {
      var o := buf.GetVarint();
      if o.Fail? { return Fail(o.error); }
      offset := o.value;
    }
    var data;
    if typ / 2 % 2 != 0 {
      data := GetCounted(buf);
    } else {
      data := buf.GetBytes(|buf.Rest()|);
    }
    if data.Fail? { return Fail(data.error); }
    r := Done(Stream(id.value, offset, typ % 2 != 0, data.value), buf.Rest());
  }

  method GetNewConnectionId(buf: Buf) returns (r: Parse<Frame>)
    requires buf.Valid()
    modifies buf
    ensures buf.Valid() && r == old(DecodeNewConnectionId(buf.Rest()))
    ensures r.Done? ==> buf.Rest() == r.rest
  {
    hide ParseVarint, ParseBytes, ParseU8;
    var n := buf.GetVarint();
    if n.Fail? { return Fail(n.error); }
    var retire := buf.GetVarint();
    if retire.Fail? { return Fail(retire.error); }
    if retire.value > n.value {
      return Fail(Malformed("NEW_CONNECTION_ID: retire_prior_to > seq"));
    }
    var len := buf.GetU8();
    if len.Fail? { return Fail(len.error); }
    if len.value == 0 || len.value > 20 {
      return Fail(Malformed("NEW_CONNECTION_ID: invalid CID length"));
    }
    var cid := buf.GetBytes(len.value);
    if cid.Fail? { return Fail(cid.error); }
    var token := buf.GetBytes(16);
    if token.Fail? { return Fail(token.error); }
    r := Done(NewConnectionId(n.value, retire.value, cid.value, token.value), buf.Rest());
  }

  method GetClose(buf: Buf, typ: nat) returns (r: Parse<Frame>)
    requires buf.Valid()
    modifies buf
    ensures buf.Valid() && r == old(DecodeClose(typ, buf.Rest()))
    ensures r.Done? ==> buf.Rest() == r.rest
  {
    hide ParseVarint, ParseCounted;
    var code := buf.GetVarint();
    if code.Fail? { return Fail(code.error); }
    var frameType: Option<nat> := None;
    if typ == 0x1c {
      var t := buf.GetVarint();
      if t.Fail? { return Fail(t.error); }
      frameType := Some(t.value);
    }
    var reason := GetCounted(buf);
    if reason.Fail? { return Fail(reason.error); }
    r := Done(ConnectionClose(code.value, frameType, typ != 0x1c, reason.value), buf.Rest());
  }

  method GetNewToken(buf: Buf) returns (r: Parse<Frame>)
    requires buf.Valid()
    modifies buf
    ensures buf.Valid() && r == old(DecodeNewToken(buf.Rest()))
    ensures r.Done? ==> buf.Rest() == r.rest
  {
    hide ParseVarint, ParseBytes;
    var len := buf.GetVarint();
    if len.Fail? { return Fail(len.error); }
    if len.value == 0 {
      return Fail(Malformed("NEW_TOKEN empty"));
    }
    var token := buf.GetBytes(len.value);
    if token.Fail? { return Fail(token.error); }
    r := Done(NewToken(token.value), buf.Rest());
  }

  method GetIntegers(buf: Buf, typ: nat) returns (r: Parse<Frame>)
    requires buf.Valid() && typ in {0x04, 0x05, 0x10, 0x11, 0x12, 0x13, 0x14, 0x15, 0x16, 0x17, 0x19}
    modifies buf
    ensures buf.Valid() && r == old(DecodeIntegers(typ, buf.Rest()))
    ensures r.Done? ==> buf.Rest() == r.rest
  {
    hide ParseVarint;
    var a := buf.GetVarint();
    if a.Fail? { return Fail(a.error); }
    if typ == 0x10 {
      return Done(MaxData(a.value), buf.Rest());
    }
    if typ == 0x12 || typ == 0x13 {
      if a.value > MAX_STREAMS_LIMIT {
        return Fail(Malformed("MAX_STREAMS exceeds 2^60"));
      }
      return Done(MaxStreams(if typ == 0x13 then Unidirectional else Bidirectional, a.value), buf.Rest());
    }
    if typ == 0x14 {
      return Done(DataBlocked(a.value), buf.Rest());
    }
    if typ == 0x16 || typ == 0x17 {
      return Done(StreamsBlocked(if typ == 0x17 then Unidirectional else Bidirectional, a.value), buf.Rest());
    }
    if typ == 0x19 {
      return Done(RetireConnectionId(a.value), buf.Rest());
    }
    var b := buf.GetVarint();
    if b.Fail? { return Fail(b.error); }
    if typ == 0x05 {
      return Done(StopSending(a.value, b.value), buf.Rest());
    }
    if typ == 0x11 {
      return Done(MaxStreamData(a.value, b.value), buf.Rest());
    }
    if typ == 0x15 {
      return Done(StreamDataBlocked(a.value, b.value), buf.Rest());
    }
    var c := buf.GetVarint();
    if c.Fail? { return Fail(c.error); }
    r := Done(ResetStream(a.value, b.value, c.value), buf.Rest());
  }

  /** Swallows the run of zero octets at the cursor. */
  method SkipZeros(buf: Buf) returns (count: nat)
    requires buf.Valid()
    modifies buf
    ensures buf.Valid() && count == old(LeadingZeros(buf.Rest()))
    ensures buf.Rest() == old(buf.Rest())[count..]
  {
    count := 0;
    ghost var s := buf.Rest();
    while |buf.Rest()| > 0
      invariant buf.Valid() && count <= |s| && buf.Rest() == s[count..]
      invariant count + LeadingZeros(buf.Rest()) == LeadingZeros(s)
      decreases |buf.Rest()|
    {
      if buf.Rest()[0] != 0 {
        break;
      }
      assert s[count..][1..] == s[count + 1..];
      var _ := buf.GetU8();
      count := count + 1;
    }
  }

  /** Decodes one frame and leaves the cursor behind it. */
  method DecodeFrom(buf: Buf) returns (r: Parse<Frame>)
    requires buf.Valid()
    modifies buf
    ensures buf.Valid() && r == old(DecodeFrame(buf.Rest()))
    ensures r.Done? ==> buf.Rest() == r.rest
  {
    hide ParseVarint, ParseBytes, ParseCounted, DecodeAck, DecodeStream, DecodeNewToken,
         DecodeNewConnectionId, DecodeClose, DecodeIntegers, LeadingZeros;
    var t := buf.GetVarint();
    if t.Fail? { return Fail(t.error); }
    var typ := t.value;
    if typ == 0x00 {
      var n := SkipZeros(buf);
      r := Done(Padding(1 + n), buf.Rest());
    } else if typ == 0x01 {
      r := Done(Ping, buf.Rest());
    } else if typ == 0x02 || typ == 0x03 {
      r := GetAck(buf, typ);
    } else if typ == 0x06 {
      var offset := buf.GetVarint();
      if offset.Fail? { return Fail(offset.error); }
      var data := GetCounted(buf);
      if data.Fail? { return Fail(data.error); }
      r := Done(Crypto(offset.value, data.value), buf.Rest());
    } else if typ == 0x07 {
      r := GetNewToken(buf);
    } else if 0x08 <= typ <= 0x0f {
      r := GetStream(buf, typ);
    } else if typ == 0x18 {
      r := GetNewConnectionId(buf);
    } else if 0x04 <= typ <= 0x05 || 0x10 <= typ <= 0x17 || typ == 0x19 {
      r := GetIntegers(buf, typ);
    } else if typ == 0x1a || typ == 0x1b {
      var data := buf.GetBytes(8);
      if data.Fail? { return Fail(data.error); }
      r := Done(if typ == 0x1a then PathChallenge(data.value) else PathResponse(data.value), buf.Rest());
    } else if typ == 0x1c || typ == 0x1d {
      r := GetClose(buf, typ);
    } else if typ == 0x1e {
      r := Done(HandshakeDone, buf.Rest());
    } else if typ == 0x30 {
      var data := buf.Rest();
      buf.pos := |buf.bytes|;
      r := Done(Datagram(data), []);
    } else if typ == 0x31 {
      var data := GetCounted(buf);
      if data.Fail? { return Fail(data.error); }
      r := Done(Datagram(data.value), buf.Rest());
    } else {
      r := Fail(Malformed("unknown frame type"));
    }
  }
}
