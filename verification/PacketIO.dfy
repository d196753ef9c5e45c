/** The packet builders and parsers as they run: appending to a buffer, working in place. */
module PacketIO {
  import opened Common
  import opened Coding
  import opened PacketNumbers
  import opened HeaderProtection
  import opened Packets
  import F = Frames

  // --------------------------------------------------------------------- building

  method BuildLongPacket(datagram: Sink, p: BuildLong, payload: seq<byte>, keys: Keys)
    requires Buildable(p) && Sound(keys)
    modifies datagram
    ensures datagram.bytes == old(datagram.bytes) + LongPacket(p, payload, keys)
  {
    hide LongMiddle, EncodeVarint, Finish, Sound;
    var start := |datagram.bytes|;
    var pnLen := PacketNumberLen(p.number, p.largestAcked);
    WriteLongHead(datagram, p, pnLen + |payload| + TAG_LEN);
    ghost var head := LongHead(p, |payload|);
    assert datagram.bytes == old(datagram.bytes) + head;
    assert PnLen(head[0]) == pnLen;
    hide LongHead;
    var pnAt := |datagram.bytes|;
    datagram.Extend(EncodePacketNumber(p.number, pnLen));
    FinishPacket(datagram, start, pnAt, pnLen, p.number, payload, keys, head);
  }

  method WriteLongHead(datagram: Sink, p: BuildLong, length: nat)
    requires Buildable(p)
    modifies datagram
    ensures datagram.bytes == old(datagram.bytes) + ([LongFirst(p)] + (LongMiddle(p) + EncodeVarint(length)))
  {
    hide EncodeVarint, BigEndian;
    var pnLen := PacketNumberLen(p.number, p.largestAcked);
    datagram.Push(0x80 + 0x40 + 16 * p.longType.Bits() + (pnLen - 1));
    datagram.Extend(BigEndian(p.version, 4));
    datagram.Push(|p.dcid|);
    datagram.Extend(p.dcid);
    datagram.Push(|p.scid|);
    datagram.Extend(p.scid);
    ghost var token := [];
    if p.longType.InitialType? {
      datagram.PutVarint(|p.token|);
      datagram.Extend(p.token);
      token := F.Counted(p.token);
    }
    datagram.PutVarint(length);
    hide F.Counted, LongFirst;
    Regroup(old(datagram.bytes), [LongFirst(p)], BigEndian(p.version, 4), [|p.dcid|], p.dcid, [|p.scid|], p.scid, token,
            EncodeVarint(length));
    assert datagram.bytes == old(datagram.bytes) + [LongFirst(p)] + BigEndian(p.version, 4) + [|p.dcid|] + p.dcid
                             + [|p.scid|] + p.scid + token + EncodeVarint(length);
  }

  lemma Regroup<T>(z: seq<T>, a: seq<T>, b: seq<T>, c: seq<T>, d: seq<T>, e: seq<T>, f: seq<T>, g: seq<T>, h: seq<T>)
    ensures z + a + b + c + d + e + f + g + h == z + (a + ((b + (c + (d + (e + (f + g))))) + h))
  {
    assert c + (d + (e + (f + g))) == c + d + e + f + g;
    assert b + (c + d + e + f + g) == b + c + d + e + f + g;
    assert z + (a + ((b + c + d + e + f + g) + h)) == z + a + (b + c + d + e + f + g) + h;
    assert z + a + (b + c + d + e + f + g) == z + a + b + c + d + e + f + g;
  }

  method BuildShortPacket(datagram: Sink, p: BuildShort, payload: seq<byte>, keys: Keys)
    requires Sound(keys)
    modifies datagram
    ensures datagram.bytes == old(datagram.bytes) + ShortPacket(p, payload, keys)
  {
    var start := |datagram.bytes|;
    var pnLen := PacketNumberLen(p.number, p.largestAcked);
    datagram.Push(0x40 + (if p.keyPhase then 4 else 0) + (pnLen - 1));
    datagram.Extend(p.dcid);
    ghost var head := ShortHead(p);
    assert datagram.bytes == old(datagram.bytes) + head;
    var pnAt := |datagram.bytes|;
    datagram.Extend(EncodePacketNumber(p.number, pnLen));
    FinishPacket(datagram, start, pnAt, pnLen, p.number, payload, keys, head);
  }

  /** Pads if needed and seals under the header written so far. */
  method SealPayload(datagram: Sink, start: nat, pnLen: nat, number: nat, payload: seq<byte>, keys: Keys)
    requires start <= |datagram.bytes|
    modifies datagram
    ensures datagram.bytes
         == old(datagram.bytes) + keys.seal(number, old(datagram.bytes)[start..], Padded(payload, pnLen))
  {
    var minimum := SatSub(SAMPLE_OFFSET + SAMPLE_LEN, pnLen + TAG_LEN);
    var effective := payload;
    if |payload| < minimum {
      effective := payload + F.Zeros(minimum - |payload|);
    }
    PaddedIs(payload, pnLen);
    hide Padded;
    var header := datagram.bytes[start..];
    datagram.Extend(keys.seal(number, header, effective));
  }

  /** Seals the payload, then protects the header. */
  method FinishPacket(datagram: Sink, start: nat, pnAt: nat, pnLen: nat, number: nat, payload: seq<byte>, keys: Keys,
                      ghost head: seq<byte>)
    requires head != [] && 1 <= pnLen <= 4 && PnLen(head[0]) == pnLen && Sound(keys)
    requires start + |head| == pnAt && pnAt + pnLen == |datagram.bytes|
    requires datagram.bytes[start..] == head + EncodePacketNumber(number, pnLen)
    modifies datagram
    ensures datagram.bytes == old(datagram.bytes)[..start] + Finish(head, number, pnLen, payload, keys)
  {
    hide Masked, EncodePacketNumber, Sound, MaskFirst, Padded, Finish;
    ghost var header := datagram.bytes[start..];
    ghost var sealed := keys.seal(number, header, Padded(payload, pnLen));
    SealPayload(datagram, start, pnLen, number, payload, keys);
    FinishIsMasked(head, number, pnLen, payload, keys);
    AppendDrop(old(datagram.bytes), sealed, start);
    var sampleAt := pnAt + SAMPLE_OFFSET;
    var raw := datagram.bytes[start..];
    assert raw == header + sealed && raw[0] == head[0];
    var sample := datagram.bytes[sampleAt..sampleAt + SAMPLE_LEN];
    DropSlice(datagram.bytes, start, |head| + SAMPLE_OFFSET, |head| + SAMPLE_OFFSET + SAMPLE_LEN);
    var protected := Protect(raw, pnAt - start, pnLen, keys.mask(sample));
    datagram.bytes := datagram.bytes[..start] + protected;
  }

  lemma AppendDrop<T>(d: seq<T>, more: seq<T>, k: nat)
    requires k <= |d|
    ensures (d + more)[k..] == d[k..] + more && (d + more)[..k] == d[..k]
  {
  }

  lemma PaddedIs(payload: seq<byte>, pnLen: nat)
    ensures var minimum := SatSub(SAMPLE_OFFSET + SAMPLE_LEN, pnLen + TAG_LEN);
            Padded(payload, pnLen)
            == if |payload| < minimum then payload + F.Zeros(minimum - |payload|) else payload
  {
  }

  /** Header protection applied to the octets of one packet. */
  method Protect(raw: seq<byte>, pnAt: nat, pnLen: nat, mask: Mask) returns (s: seq<byte>)
    requires 0 < pnAt && pnAt + pnLen <= |raw| && PnLen(raw[0]) == pnLen
    ensures s == Masked(raw, pnAt, pnLen, mask)
  {
    var packet := new byte[|raw|](i requires 0 <= i < |raw| => raw[i]);
    assert packet[0..] == raw;
    XorInPlace(packet, 0, pnAt, pnLen, mask, false);
    s := packet[0..];
  }

  // ---------------------------------------------------------------------- parsing

  /** Reads the header of the packet at the front of `s`. */
  method ReadLongHeader(s: seq<byte>) returns (r: Parse<Layout>)
    requires s != []
    ensures r == ParseLongHeader(s)
  {
    hide ParseFields, ParseLength, PacketTypeOf;
    var buf := new Buf(s);
    var first := buf.GetU8();
    assert buf.Rest() == s[1..];
    var fields := ReadFields(buf);
    if fields.Fail? {
      return Fail(fields.error);
    }
    var (version, dcid, scid) := fields.value;
    var packetType := PacketTypeOf(s[0], version);
    var length := ReadLength(buf, packetType.Initial?);
    if length.Fail? {
      return Fail(length.error);
    }
    var end := buf.pos + length.value;
    if end > |s| {
      return Fail(UnexpectedEnd);
    }
    r := Done(Layout(packetType, version, scid, dcid, buf.pos, end), s[buf.pos..]);
  }

  method ReadLength(buf: Buf, initial: bool) returns (r: Parse<nat>)
    requires buf.Valid()
    modifies buf
    ensures buf.Valid() && old(buf.pos) <= buf.pos
    ensures r == old(ParseLength(buf.Rest(), initial))
    ensures r.Done? ==> buf.Rest() == r.rest
  {
    hide ParseVarint;
    if initial {
      var len := buf.GetVarint();
      if len.Fail? {
        return Fail(len.error);
      }
      var token := buf.GetBytes(len.value);
      if token.Fail? {
        return Fail(token.error);
      }
    }
    r := buf.GetVarint();
  }

  method ReadFields(buf: Buf) returns (r: Parse<(nat, seq<byte>, seq<byte>)>)
    requires buf.Valid()
    modifies buf
    ensures buf.Valid() && old(buf.pos) <= buf.pos
    ensures r == old(ParseFields(buf.Rest()))
    ensures r.Done? ==> buf.Rest() == r.rest
  {
    var version := buf.GetU32();
    if version.Fail? {
      return Fail(version.error);
    }
    var dcid := ReadCid(buf, "dcid too long");
    if dcid.Fail? {
      return Fail(dcid.error);
    }
    var scid := ReadCid(buf, "scid too long");
    if scid.Fail? {
      return Fail(scid.error);
    }
    r := Done((version.value, dcid.value, scid.value), scid.rest);
  }

  method ReadCid(buf: Buf, name: string) returns (r: Parse<seq<byte>>)
    requires buf.Valid()
    modifies buf
    ensures buf.Valid() && old(buf.pos) <= buf.pos
    ensures r == old(ParseCid(buf.Rest(), name))
    ensures r.Done? ==> buf.Rest() == r.rest
  {
    var len := buf.GetU8();
    if len.Fail? {
      return Fail(len.error);
    }
    if len.value > 20 {
      return Fail(Malformed(name));
    }
    r := buf.GetBytes(len.value);
  }

  /** Removes header protection at `start`; nothing but this packet's header changes. */
  method UnmaskInPlace(a: array<byte>, start: nat, pnAt: nat, mask: seq<byte> -> Mask)
    requires start < pnAt && pnAt + SAMPLE_OFFSET + SAMPLE_LEN <= a.Length
    modifies a
    ensures a[start..] == Unmask(old(a[start..]), pnAt - start, mask) && a[..start] == old(a[..start])
  {
    var sampleAt := pnAt + SAMPLE_OFFSET;
    var sample := a[sampleAt..sampleAt + SAMPLE_LEN];
    ghost var s := a[start..];
    assert sample == s[pnAt - start + SAMPLE_OFFSET..pnAt - start + SAMPLE_OFFSET + SAMPLE_LEN];
    assert a[start] == s[0];
    XorInPlace(a, start, pnAt, 4, mask(sample), true);
  }

  lemma DropSlice<T>(d: seq<T>, k: nat, x: nat, y: nat)
    requires x <= y && k + y <= |d|
    ensures d[k..][x..y] == d[k + x..k + y]
  {
  }

  /** Recovers the number and opens the payload of a packet in the clear. */
  method OpenPacket(a: array<byte>, start: nat, pnAt: nat, end: nat, largest: Option<nat>, keys: Keys)
    returns (r: Result<(nat, seq<byte>)>)
    requires start < pnAt < a.Length && pnAt + PnLen(a[start]) <= end <= a.Length
    ensures r == Decrypt(a[start..], pnAt - start, end - start, largest, keys)
  {
    hide FromBigEndian, DecodePacketNumber;
    var n := PnLen(a[start]);
    ghost var d := a[..];
    DropSlice(d, start, pnAt - start, pnAt - start + n);
    DropSlice(d, start, 0, pnAt - start + n);
    DropSlice(d, start, pnAt - start + n, end - start);
    assert a[start..] == d[start..] && d[start..][0] == a[start];
    var truncated := ReadTruncated(a, pnAt, n);
    var number := DecodePacketNumber(largest, truncated, n);
    var header, payload := a[start..pnAt + n], a[pnAt + n..end];
    var plain := keys.open(number, header, payload);
    r := if plain.None? then Err(Cipher) else Ok((number, plain.value));
  }

  /** Opens a packet in the clear, writing the plaintext over the front of its payload. */
  method DecryptInPlace(a: array<byte>, start: nat, pnAt: nat, end: nat, largest: Option<nat>, keys: Keys)
    returns (r: Result<(nat, seq<byte>)>)
    requires start < pnAt < a.Length && pnAt + PnLen(a[start]) <= end <= a.Length
    modifies a
    ensures r == Decrypt(old(a[start..]), pnAt - start, end - start, largest, keys)
    ensures forall i :: 0 <= i < pnAt || end <= i < a.Length ==> a[i] == old(a[i])
  {
    hide Decrypt;
    var n := PnLen(a[start]);
    ghost var s := a[start..];
    assert s[0] == a[start];
    r := OpenPacket(a, start, pnAt, end, largest, keys);
    if r.Ok? {
      var text := r.value.1;
      var room := Min(|text|, end - pnAt - n);
      forall i | 0 <= i < room {
        a[pnAt + n + i] := text[i];
      }
    }
  }

  method ReadTruncated(a: array<byte>, at: nat, n: nat) returns (value: nat)
    requires at + n <= a.Length
    ensures value == FromBigEndian(a[at..at + n])
  {
    value := 0;
    for i := 0 to n
      invariant value == FromBigEndian(a[at..at + i])
    {
      NextOctet(a[at..at + i], a[at + i]);
      assert a[at..at + i + 1] == a[at..at + i] + [a[at + i]];
      value := value * 256 + a[at + i];
    }
  }

  method UnprotectAndDecrypt(a: array<byte>, start: nat, pnAt: nat, end: nat, largest: Option<nat>, keys: Keys)
    returns (r: Result<(nat, seq<byte>, byte)>)
    requires start < pnAt <= end <= a.Length
    modifies a
    ensures r == Unprotect(old(a[start..]), pnAt - start, end - start, largest, keys)
    ensures forall i :: 0 <= i < start || end <= i < a.Length ==> a[i] == old(a[i])
  {
    if pnAt + SAMPLE_OFFSET + SAMPLE_LEN > end {
      return Err(Truncated);
    }
    ghost var s := a[start..];
    UnmaskInPlace(a, start, pnAt, keys.mask);
    ghost var clear := a[start..];
    forall i | 0 <= i < start || end <= i < a.Length
      ensures a[i] == old(a[i])
    {
      assert i < start ==> a[i] == a[..start][i] && old(a[i]) == old(a[..start])[i];
      assert i >= start ==> a[i] == clear[i - start] && old(a[i]) == s[i - start];
    }
    assert a[start] == clear[0];
    var first := a[start];
    var plain := DecryptInPlace(a, start, pnAt, end, largest, keys);
    if plain.Err? {
      return Err(plain.error);
    }
    r := Ok((plain.value.0, plain.value.1, first));
  }

  method ParseLongPacket(a: array<byte>, offset: nat, version: nat, largest: Option<nat>, keys: Keys)
    returns (r: Result<Parsed>)
    requires offset <= a.Length
    modifies a
    ensures match ParseLong(old(a[offset..]), version, largest, keys)
            case Err(e) => r == Err(e)
            case Ok(p) => r == Ok(Shift(p, offset))
    ensures forall i :: 0 <= i < offset || (r.Ok? && r.value.consumed <= i < a.Length) ==> a[i] == old(a[i])
  {
    hide ParseLongHeader, Unprotect;
    if offset >= a.Length {
      return Err(Truncated);
    }
    var header := ReadLongHeader(a[offset..]);
    if header.Fail? {
      return Err(match header.error case UnexpectedEnd => Truncated case Malformed(field) => BadHeader(field));
    }
    var l := header.value;
    if l.version != version {
      return Err(Version(l.version));
    }
    var body := UnprotectAndDecrypt(a, offset, offset + l.pnAt, offset + l.end, largest, keys);
    if body.Err? {
      return Err(body.error);
    }
    r := Ok(Parsed(l.packetType, l.scid, l.dcid, body.value.0, body.value.1, offset + l.end, false));
  }

  method ParseShortPacket(a: array<byte>, offset: nat, cidLen: nat, largest: Option<nat>, keys: Keys)
    returns (r: Result<Parsed>)
    requires offset <= a.Length
    modifies a
    ensures match ParseShort(old(a[offset..]), cidLen, largest, keys)
            case Err(e) => r == Err(e)
            case Ok(p) => r == Ok(Shift(p, offset))
    ensures forall i :: 0 <= i < offset ==> a[i] == old(a[i])
  {
    hide Unprotect;
    if offset >= a.Length || offset + 1 + cidLen > a.Length {
      return Err(Truncated);
    }
    var dcid := a[offset + 1..offset + 1 + cidLen];
    assert dcid == a[offset..][1..1 + cidLen];
    var body := UnprotectAndDecrypt(a, offset, offset + 1 + cidLen, a.Length, largest, keys);
    if body.Err? {
      return Err(body.error);
    }
    r := Ok(Parsed(Short, [], dcid, body.value.0, body.value.1, a.Length, KeyPhase(body.value.2)));
  }

  /** One turn of the receive loop. */
  method ReceivePacket(a: array<byte>, offset: nat, r: Receiver) returns (out: Option<Parsed>)
    requires offset < a.Length
    modifies a
    ensures match ReceiveOne(old(a[offset..]), r)
            case None => out == None
            case Some(p) => out == Some(Shift(p, offset))
    ensures forall i :: out.Some? && out.value.consumed <= i < a.Length ==> a[i] == old(a[i])
  {
    ghost var s := a[offset..];
    assert s[0] == a[offset];
    var parsed: Result<Parsed>;
    if IsLong(a[offset]) {
      var header := ReadLongHeader(a[offset..]);
      if header.Fail? {
        return None;
      }
      var packetType := header.value.packetType;
      if packetType.Retry? || packetType.VersionNegotiation? || r.KeysFor(packetType).None? {
        return None;
      }
      parsed := ParseLongPacket(a, offset, r.version, r.Largest(packetType), r.KeysFor(packetType).value);
    } else {
      if r.KeysFor(Short).None? {
        return None;
      }
      parsed := ParseShortPacket(a, offset, r.cidLen, r.application, r.KeysFor(Short).value);
    }
    out := if parsed.Ok? then Some(parsed.value) else None;
  }

  /**
   * The receive loop. Decrypting a packet in place leaves the packets behind it as they
   * arrived, so the loop computes what `Receive` computes from the datagram as received.
   */
  method ReceiveDatagram(a: array<byte>, receiver: Receiver) returns (out: seq<Parsed>)
    modifies a
    ensures out == Receive(old(a[..]), 0, receiver)
  {
    hide ReceiveOne, Receive;
    out := [];
    var r := receiver;
    var offset := 0;
    assert a[0..] == a[..];
    if a.Length == 0 {
      ReceiveStops(a[..], 0, r);
    }
    while offset < a.Length
      invariant 0 <= offset <= a.Length
      invariant offset == a.Length ==> Receive(old(a[offset..]), offset, r) == []
      invariant a[offset..] == old(a[offset..])
      invariant out + Receive(old(a[offset..]), offset, r) == Receive(old(a[..]), 0, receiver)
    {
      ghost var s := a[offset..];
      assert s[0] == a[offset];
      if a[offset] == 0 {
        ReceiveStops(s, offset, r);
        break;
      }
      var packet := ReceivePacket(a, offset, r);
      if packet.None? {
        ReceiveStops(s, offset, r);
        break;
      }
      var p := packet.value;
      assert s[p.consumed - offset..] == old(a[p.consumed..]);
      assert a[p.consumed..] == old(a[p.consumed..]);
      ReceiveUnfold(s, offset, r, out);
      out := out + [p];
      r := r.Saw(p);
      offset := p.consumed;
      if offset == a.Length {
        ReceiveStops(old(a[offset..]), offset, r);
      }
    }
    assert out + [] == out;
  }

  lemma ReceiveStops(s: seq<byte>, at: nat, r: Receiver)
    requires s == [] || s[0] == 0 || ReceiveOne(s, r).None?
    ensures Receive(s, at, r) == []
  {
    hide ReceiveOne;
  }

  lemma ReceiveUnfold(s: seq<byte>, at: nat, r: Receiver, before: seq<Parsed>)
    requires s != [] && s[0] != 0 && ReceiveOne(s, r).Some?
    ensures var p := ReceiveOne(s, r).value;
            before + Receive(s, at, r)
            == before + [Shift(p, at)] + Receive(s[p.consumed..], at + p.consumed, r.Saw(p))
  {
    hide ReceiveOne, Receiver.Saw;
  }
}
