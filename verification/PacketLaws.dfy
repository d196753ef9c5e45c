/**
 * Round trips of protected packets: what a builder writes, the parser takes apart, for
 * every cipher that opens what it seals, and for every datagram of coalesced packets.
 */
module PacketLaws {
  import opened Common
  import opened Coding
  import opened PacketNumbers
  import opened HeaderProtection
  import opened Packets
  import F = Frames
  import FL = FrameLaws

  // ------------------------------------------------------------------ long headers

  lemma TakeField(a: seq<byte>, x: seq<byte>, rest: seq<byte>)
    ensures (a + x) + rest == a + (x + rest)
    ensures ParseBytes(a + (x + rest), |a|) == Done(a, x + rest)
  {
    var s := a + (x + rest);
    assert s[..|a|] == a && s[|a|..] == x + rest;
  }

  lemma TakeCid(cid: seq<byte>, x: seq<byte>, rest: seq<byte>, name: string)
    requires |cid| <= 20
    ensures ParseCid([|cid|] + (cid + (x + rest)), name) == Done(cid, x + rest)
    ensures ([|cid|] + (cid + x)) + rest == [|cid|] + (cid + (x + rest))
  {
    TakeField(cid, x, rest);
    var s := [|cid|] + (cid + (x + rest));
    assert s[0] == |cid| && s[1..] == cid + (x + rest);
  }

  lemma FieldsParse(p: BuildLong, rest: seq<byte>)
    requires Buildable(p)
    ensures var token := if p.longType.InitialType? then F.Counted(p.token) else [];
            ParseFields(LongMiddle(p) + rest) == Done((p.version, p.dcid, p.scid), token + rest)
  {
    var token := if p.longType.InitialType? then F.Counted(p.token) else [];
    var v := BigEndian(p.version, 4);
    var d := [|p.dcid|] + (p.dcid + ([|p.scid|] + (p.scid + token)));
    BigEndianValue(p.version, 4);
    Pow256Values();
    SmallMod(p.version, Pow256(4));
    TakeField(v, d, rest);
    TakeCid(p.scid, token, rest, "scid too long");
    TakeCid(p.dcid, [|p.scid|] + (p.scid + token), rest, "dcid too long");
    hide BigEndian, FromBigEndian, Pow256, ParseCid;
    assert LongMiddle(p) == v + d;
  }

  lemma HeadShape(p: BuildLong, payloadLen: nat, first: byte, tail: seq<byte>)
    requires Buildable(p)
    ensures var head := LongHead(p, payloadLen);
            var s := ([first] + head[1..]) + tail;
            && s[0] == first && |s| == |head| + |tail|
            && s[1..] == LongMiddle(p) + (EncodeVarint(p.Len() + payloadLen + TAG_LEN) + tail)
  {
    hide LongMiddle, EncodeVarint, LongFirst;
  }

  /** Reads the token, where there is one, and the Length field. */
  lemma TokenAndLength(p: BuildLong, length: nat, tail: seq<byte>)
    requires Buildable(p) && F.Fits(length)
    ensures var token := if p.longType.InitialType? then F.Counted(p.token) else [];
            ParseLength(token + (EncodeVarint(length) + tail), p.longType.InitialType?) == Done(length, tail)
  {
    var rest := EncodeVarint(length) + tail;
    VarintRoundTrip(length, tail);
    hide EncodeVarint, ParseVarint, F.Counted, F.ParseCounted;
    if p.longType.InitialType? {
      FL.ReadCounted(p.token, rest);
    } else {
      assert [] + rest == rest;
    }
  }

  /** A long header parses whatever its protected bits look like. */
  lemma HeaderParses(p: BuildLong, payloadLen: nat, first: byte, tail: seq<byte>)
    requires Buildable(p) && p.version != 0 && first / 16 == LongFirst(p) / 16
    requires F.Fits(p.Len() + payloadLen + TAG_LEN) && p.Len() + payloadLen + TAG_LEN <= |tail|
    ensures var head := LongHead(p, payloadLen);
            var s := ([first] + head[1..]) + tail;
            && ParseLongHeader(s) == Done(Layout(p.longType.Type(), p.version, p.scid, p.dcid,
                                                 |head|, |head| + p.Len() + payloadLen + TAG_LEN), tail)
            && IsLong(first)
  {
    hide LongHead, ParseFields, ParseLength, EncodeVarint, F.Counted, LongMiddle, PacketTypeOf, LongFirst;
    var length := p.Len() + payloadLen + TAG_LEN;
    FirstKeeps(p, first);
    HeadShape(p, payloadLen, first, tail);
    FieldsParse(p, EncodeVarint(length) + tail);
    TokenAndLength(p, length, tail);
  }

  lemma FirstKeeps(p: BuildLong, first: byte)
    requires p.version != 0 && first / 16 == LongFirst(p) / 16
    ensures IsLong(first) && PacketTypeOf(first, p.version) == p.longType.Type()
  {
    assert LongFirst(p) / 16 == 12 + p.longType.Bits();
  }

  /** `Finish` keeps every header octet but the protected bits. */
  lemma FinishKeepsHead(head: seq<byte>, number: nat, pnLen: nat, payload: seq<byte>, keys: Keys)
    requires head != [] && 1 <= pnLen <= 4 && Sound(keys)
    ensures var s := Finish(head, number, pnLen, payload, keys);
            && s == ([s[0]] + head[1..]) + s[|head|..]
            && s[0] / 32 == head[0] / 32 && (IsLong(head[0]) ==> s[0] / 16 == head[0] / 16)
  {
    var s := Finish(head, number, pnLen, payload, keys);
    var header := head + EncodePacketNumber(number, pnLen);
    var raw := header + keys.seal(number, header, Padded(payload, pnLen));
    var m := keys.mask(raw[|head| + SAMPLE_OFFSET..|head| + SAMPLE_OFFSET + SAMPLE_LEN]);
    MaskFirstLaws(head[0], m[0]);
    assert raw[0] == head[0];
    assert s == Masked(raw, |head|, pnLen, m);
    hide Finish, MaskFirst;
    forall i | 1 <= i < |head|
      ensures s[i] == head[i]
    {
      assert raw[i] == head[i];
    }
  }

  /** The builder's packet and its Length field agree. */
  predicate Samplable(p: BuildLong, payload: seq<byte>) {
    p.Len() + |payload| >= 4
  }

  /**
   * A long packet, with anything behind it, parses back exactly when the payload is long
   * enough to be sampled. A shorter one is padded after its Length was written, so the
   * receiver finds it truncated.
   */
  lemma LongRoundTrip(p: BuildLong, payload: seq<byte>, keys: Keys, post: seq<byte>, largest: Option<nat>)
    requires Buildable(p) && p.version != 0 && Sound(keys) && F.Fits(p.Len() + |payload| + TAG_LEN)
    requires Recovers(p.number, p.Len(), largest)
    ensures var s := LongPacket(p, payload, keys);
            ParseLong(s + post, p.version, largest, keys)
            == if Samplable(p, payload)
               then Ok(Parsed(p.longType.Type(), p.scid, p.dcid, p.number, payload, |s|, false))
               else Err(Truncated)
  {
    hide ParseLongHeader, LongHead, LongMiddle, LongFirst, Unprotect, Finish, Recovers, Padded;
    var head := LongHead(p, |payload|);
    var s := LongPacket(p, payload, keys);
    LongLayout(p, payload, keys, post);
    FirstLen(p);
    FinishRoundTrip(head, p.number, p.Len(), payload, keys, post, largest);
    NoPadding(payload, p.Len());
    hide Sound;
    if !Samplable(p, payload) {
      ShortSample(s + post, |head|, |head| + p.Len() + |payload| + TAG_LEN, largest, keys);
    }
  }

  lemma NoPadding(payload: seq<byte>, pnLen: nat)
    requires 1 <= pnLen <= 4
    ensures if pnLen + |payload| >= 4 then Padded(payload, pnLen) == payload
            else |Padded(payload, pnLen)| == 4 - pnLen
    ensures payload <= Padded(payload, pnLen)
    ensures forall i :: |payload| <= i < |Padded(payload, pnLen)| ==> Padded(payload, pnLen)[i] == 0
  {
  }

  lemma ShortSample(s: seq<byte>, pnAt: nat, end: nat, largest: Option<nat>, keys: Keys)
    requires 0 < pnAt <= end <= |s| && pnAt + SAMPLE_OFFSET + SAMPLE_LEN > end
    ensures Unprotect(s, pnAt, end, largest, keys) == Err(Truncated)
  {
  }

  lemma FirstLen(p: BuildLong)
    ensures PnLen(LongFirst(p)) == p.Len() && IsLong(LongFirst(p))
  {
  }

  lemma LongLayout(p: BuildLong, payload: seq<byte>, keys: Keys, post: seq<byte>)
    requires Buildable(p) && p.version != 0 && Sound(keys) && F.Fits(p.Len() + |payload| + TAG_LEN)
    ensures var s, head := LongPacket(p, payload, keys), LongHead(p, |payload|);
            && s != [] && IsLong(s[0])
            && |s| == |head| + p.Len() + |Padded(payload, p.Len())| + TAG_LEN
            && ParseLongHeader(s + post)
               == Done(Layout(p.longType.Type(), p.version, p.scid, p.dcid,
                              |head|, |head| + p.Len() + |payload| + TAG_LEN), s[|head|..] + post)
  {
    hide Finish, LongHead, LongFirst, ParseLongHeader, Padded;
    var s, head := LongPacket(p, payload, keys), LongHead(p, |payload|);
    FinishKeepsHead(head, p.number, p.Len(), payload, keys);
    FirstLen(p);
    NoPadding(payload, p.Len());
    hide Sound;
    var tail := s[|head|..] + post;
    HeaderParses(p, |payload|, s[0], tail);
    assert s + post == ([s[0]] + head[1..]) + tail;
  }

  // ----------------------------------------------------------------- short headers

  lemma ShortFirst(p: BuildShort)
    ensures var first := ShortHead(p)[0];
            PnLen(first) == p.Len() && KeyPhase(first) == p.keyPhase && !IsLong(first) && first / 32 == 2
  {
  }

  /** A short packet parses back; a payload too short to be sampled gains PADDING. */
  lemma ShortRoundTrip(p: BuildShort, payload: seq<byte>, keys: Keys, largest: Option<nat>)
    requires Sound(keys) && Recovers(p.number, p.Len(), largest)
    ensures var s := ShortPacket(p, payload, keys);
            && s != [] && s[0] != 0 && !IsLong(s[0])
            && ParseShort(s, |p.dcid|, largest, keys)
               == Ok(Parsed(Short, [], p.dcid, p.number, Padded(payload, p.Len()), |s|, p.keyPhase))
  {
    var head := ShortHead(p);
    var s := ShortPacket(p, payload, keys);
    ShortFirst(p);
    FinishRoundTrip(head, p.number, p.Len(), payload, keys, [], largest);
    FinishKeepsHead(head, p.number, p.Len(), payload, keys);
    assert s + [] == s;
    hide Finish, Unprotect, Sound, Padded;
    assert s[1..1 + |p.dcid|] == p.dcid;
  }

  /** The key phase can be read with the header key alone, before choosing a packet key. */
  lemma KeyPhaseVisible(p: BuildShort, payload: seq<byte>, keys: Keys)
    requires Sound(keys)
    ensures var r := Strip(ShortPacket(p, payload, keys), |p.dcid|, keys.mask);
            r.Ok? && r.value != [] && KeyPhase(r.value[0]) == p.keyPhase
  {
    var head := ShortHead(p);
    ShortFirst(p);
    var header := head + EncodePacketNumber(p.number, p.Len());
    var sealed := keys.seal(p.number, header, Padded(payload, p.Len()));
    assert |sealed| == |Padded(payload, p.Len())| + TAG_LEN;
    var raw := header + sealed;
    UnmaskFinish(raw, |head|, keys.mask, []);
    assert ShortPacket(p, payload, keys) + [] == ShortPacket(p, payload, keys) && raw + [] == raw;
  }

  // ------------------------------------------------------------------------ refusals

  /** The first octets: form, type or key phase, and the length of the packet number. */
  lemma FirstOctets(p: BuildLong, q: BuildShort)
    ensures LongFirst(p)
         == (match p.longType case InitialType => 0xc0 case ZeroRttType => 0xd0 case HandshakeType => 0xe0)
            + (p.Len() - 1)
    ensures ShortHead(q)[0] == (if q.keyPhase then 0x44 else 0x40) + (q.Len() - 1) && ShortHead(q)[1..] == q.dcid
  {
  }

  /** The octets of an Initial header: version, connection IDs and token, each behind its length. */
  lemma InitialHeaderOctets(number: nat)
    requires number < 0x80
    ensures LongHead(BuildLong(InitialType, 1, [0xaa, 0xbb], [0xcc], [0xdd], number, Some(0)), 20)
         == [0xc0, 0, 0, 0, 1, 2, 0xaa, 0xbb, 1, 0xcc, 1, 0xdd, 37]
  {
    var p := BuildLong(InitialType, 1, [0xaa, 0xbb], [0xcc], [0xdd], number, Some(0));
    assert p.Len() == 1;
    EncodeVarint1(37);
    EncodeVarint1(1);
    assert F.Counted(p.token) == [1, 0xdd];
    assert BigEndian(1, 4) == [0, 0, 0, 1] by {
      assert BigEndian(0, 3) == [0, 0, 0] by {
        assert BigEndian(0, 1) == [0] && BigEndian(0, 2) == [0, 0];
      }
    }
    hide EncodeVarint, BigEndian, F.Counted;
  }

  /**
   * The payload of `p` was opened by the cipher, from the octets as they arrived, with the
   * whole header in the clear as associated data: only the first octet and those of the
   * packet number differ from what arrived.
   */
  ghost predicate Authentic(s: seq<byte>, p: Parsed, keys: Keys) {
    exists clear: seq<byte>, pnAt: nat, n: nat :: Opened(s, clear, pnAt, n, p, keys)
  }

  predicate Opened(s: seq<byte>, clear: seq<byte>, pnAt: nat, n: nat, p: Parsed, keys: Keys) {
    && 0 < pnAt && 1 <= n <= 4 && pnAt + n <= p.consumed <= |s| == |clear|
    && clear[1..pnAt] == s[1..pnAt] && clear[pnAt + n..] == s[pnAt + n..]
    && keys.open(p.number, clear[..pnAt + n], clear[pnAt + n..p.consumed]) == Some(p.payload)
  }

  lemma UnmaskKeeps(s: seq<byte>, pnAt: nat, mask: seq<byte> -> Mask)
    requires 0 < pnAt && pnAt + SAMPLE_OFFSET + SAMPLE_LEN <= |s|
    ensures var clear := Unmask(s, pnAt, mask);
            var n := PnLen(clear[0]);
            |clear| == |s| && clear[1..pnAt] == s[1..pnAt] && clear[pnAt + n..] == s[pnAt + n..]
  {
  }

  lemma UnprotectOpens(s: seq<byte>, pnAt: nat, end: nat, largest: Option<nat>, keys: Keys, p: Parsed)
    requires 0 < pnAt <= end <= |s| && p.consumed == end
    requires Unprotect(s, pnAt, end, largest, keys).Ok?
    requires var (number, text, _) := Unprotect(s, pnAt, end, largest, keys).value;
             p.number == number && p.payload == text
    ensures Authentic(s, p, keys)
  {
    UnmaskKeeps(s, pnAt, keys.mask);
    var clear := Unmask(s, pnAt, keys.mask);
    hide Unmask, DecodePacketNumber, FromBigEndian;
    assert Opened(s, clear, pnAt, PnLen(clear[0]), p, keys);
  }

  /** Nothing is accepted that the cipher does not open. */
  lemma OnlyAuthentic(s: seq<byte>, version: nat, cidLen: nat, largest: Option<nat>, keys: Keys)
    ensures var r := ParseLong(s, version, largest, keys); r.Ok? ==> Authentic(s, r.value, keys)
    ensures var r := ParseShort(s, cidLen, largest, keys); r.Ok? ==> Authentic(s, r.value, keys)
  {
    hide Unprotect, ParseLongHeader, Authentic;
    var long, short := ParseLong(s, version, largest, keys), ParseShort(s, cidLen, largest, keys);
    if long.Ok? {
      var l := ParseLongHeader(s).value;
      UnprotectOpens(s, l.pnAt, l.end, largest, keys, long.value);
    }
    if short.Ok? {
      UnprotectOpens(s, 1 + cidLen, |s|, largest, keys, short.value);
    }
  }

  /** So is nothing that the receive loop takes, and it uses the keys of the packet's own type. */
  lemma ReceivedAuthentic(s: seq<byte>, r: Receiver)
    requires s != [] && ReceiveOne(s, r).Some?
    ensures var p := ReceiveOne(s, r).value;
            && r.KeysFor(p.packetType).Some? && Authentic(s, p, r.KeysFor(p.packetType).value)
            && p.packetType in {Initial, ZeroRtt, Handshake, Short}
  {
    hide ParseLongHeader, Unprotect, Authentic;
    if IsLong(s[0]) {
      LongTypes(s);
      var l := ParseLongHeader(s).value;
      OnlyAuthentic(s, r.version, 0, r.Largest(l.packetType), r.KeysFor(l.packetType).value);
    } else {
      OnlyAuthentic(s, 0, r.cidLen, r.application, r.KeysFor(Short).value);
    }
  }

  lemma LongTypes(s: seq<byte>)
    requires s != [] && IsLong(s[0]) && ParseLongHeader(s).Done?
    ensures !ParseLongHeader(s).value.packetType.Short?
  {
    hide ParseFields, ParseLength;
  }

  lemma CidLimit(len: byte, s: seq<byte>, name: string)
    ensures ParseCid([len] + s, name).Done? <==> len <= 20 && len <= |s|
    ensures len > 20 ==> ParseCid([len] + s, name) == Fail(Malformed(name))
  {
    assert ([len] + s)[1..] == s;
  }

  /** A connection ID of more than 20 octets is refused, be it the first or the second. */
  lemma LongCidRefused(first: byte, version: seq<byte>, cid: seq<byte>, len: byte, s: seq<byte>,
                       want: nat, largest: Option<nat>, keys: Keys)
    requires |version| == 4 && len > 20 && |cid| <= 20
    ensures ParseLong([first] + (version + ([len] + s)), want, largest, keys) == Err(BadHeader("dcid too long"))
    ensures ParseLong([first] + (version + ([|cid|] + (cid + ([len] + s)))), want, largest, keys)
         == Err(BadHeader("scid too long"))
  {
    hide FromBigEndian, ParseCid, ParseLength, PacketTypeOf, Unprotect;
    FirstTwo(first, version, [len] + s);
    CidLimit(len, s, "dcid too long");
    var rest := [|cid|] + (cid + ([len] + s));
    FirstTwo(first, version, rest);
    TakeCid(cid, [len] + s, [], "dcid too long");
    assert [len] + s + [] == [len] + s;
    CidLimit(len, s, "scid too long");
  }

  lemma FirstTwo(first: byte, version: seq<byte>, rest: seq<byte>)
    requires |version| == 4
    ensures ([first] + (version + rest))[1..] == version + rest
    ensures ParseU32(version + rest) == Done(FromBigEndian(version), rest)
  {
    assert (version + rest)[..4] == version && (version + rest)[4..] == rest;
  }

  // ---------------------------------------------------------------- what was received

  function SawAll(r: Receiver, ps: seq<Parsed>): (r': Receiver) {
    if ps == [] then r else SawAll(r, ps[..|ps| - 1]).Saw(ps[|ps| - 1])
  }

  /** 0-RTT and short packets share a packet-number space. */
  predicate SameSpace(a: PacketType, b: PacketType) {
    (a.Initial? <==> b.Initial?) && (a.Handshake? <==> b.Handshake?)
  }

  /** `n` is the greatest of `before` and of the numbers in the space of `t`. */
  ghost predicate IsGreatest(n: Option<nat>, before: Option<nat>, ps: seq<Parsed>, t: PacketType) {
    && (n.None? ==> before.None? && forall p :: p in ps ==> !SameSpace(p.packetType, t))
    && (n.Some? ==>
          && (before == n || exists p :: p in ps && SameSpace(p.packetType, t) && p.number == n.value)
          && (before.Some? ==> before.value <= n.value)
          && (forall p :: p in ps && SameSpace(p.packetType, t) ==> p.number <= n.value))
  }

  lemma SawOne(r: Receiver, p: Parsed, t: PacketType)
    ensures r.Saw(p).Largest(t)
         == if SameSpace(p.packetType, t) then Some(MaxOpt(r.Largest(t), p.number)) else r.Largest(t)
    ensures r.Saw(p).processed == r.processed + [(p.packetType, p.payload)]
    ensures r.Saw(p).schedule == r.schedule && r.Saw(p).version == r.version && r.Saw(p).cidLen == r.cidLen
  {
  }

  /** The receive loop remembers, for each space, the largest number it has seen. */
  lemma {:induction false} LargestSeen(r: Receiver, ps: seq<Parsed>, t: PacketType)
    ensures IsGreatest(SawAll(r, ps).Largest(t), r.Largest(t), ps, t)
  {
    if ps != [] {
      var front, last := ps[..|ps| - 1], ps[|ps| - 1];
      assert ps == front + [last];
      LargestSeen(r, front, t);
      SawOne(SawAll(r, front), last, t);
      hide Receiver.Saw, Receiver.Largest, SameSpace;
    }
  }

  /** A packet of another version is refused, with the version it has. */
  lemma VersionRefused(p: BuildLong, payload: seq<byte>, keys: Keys, post: seq<byte>,
                       version: nat, largest: Option<nat>)
    requires Buildable(p) && p.version != 0 && Sound(keys) && F.Fits(p.Len() + |payload| + TAG_LEN)
    ensures version != p.version ==>
              ParseLong(LongPacket(p, payload, keys) + post, version, largest, keys) == Err(Version(p.version))
  {
    LongLayout(p, payload, keys, post);
    hide ParseLongHeader, LongPacket, Unprotect;
  }

  // --------------------------------------------------------------- packet numbers

  /** Truncated numbers are recovered exactly within half a window of the expected one. */
  lemma RecoversExactly(number: nat, pnLen: nat, largest: Option<nat>)
    requires 1 <= pnLen <= 4 && number <= VARINT_MAX && Expected(largest) <= VARINT_MAX
    ensures Recovers(number, pnLen, largest) <==> Recoverable(Expected(largest), number, Pow256(pnLen))
  {
    BigEndianValue(number, pnLen);
    DecodeExact(largest, number, pnLen);
    hide DecodePacketNumber, Recoverable, BigEndian, FromBigEndian;
  }

  // ------------------------------------------------------------ coalesced datagrams

  datatype Outgoing = OutLong(long: BuildLong, payload: seq<byte>) | OutShort(short: BuildShort, payload: seq<byte>) {
    function Type(): (t: PacketType) { if OutLong? then long.longType.Type() else Short }

    function Number(): (n: nat) { if OutLong? then long.number else short.number }

    function Len(): (n: nat)
      ensures 1 <= n <= 4
    {
      if OutLong? then long.Len() else short.Len()
    }
  }

  /** The receiver has the sender's keys by then; both use the same version and connection ID length. */
  ghost predicate Sendable(o: Outgoing, r: Receiver) {
    && r.KeysFor(o.Type()).Some? && Sound(r.KeysFor(o.Type()).value)
    && (o.OutLong? ==>
          && Buildable(o.long) && o.long.version == r.version != 0
          && F.Fits(o.Len() + |o.payload| + TAG_LEN) && Samplable(o.long, o.payload))
    && (o.OutShort? ==> |o.short.dcid| == r.cidLen)
    && Recovers(o.Number(), o.Len(), r.Largest(o.Type()))
  }

  function Build(o: Outgoing, r: Receiver): (s: seq<byte>)
    requires Sendable(o, r)
  {
    if o.OutLong? then LongPacket(o.long, o.payload, r.KeysFor(o.Type()).value)
    else ShortPacket(o.short, o.payload, r.KeysFor(Short).value)
  }

  /** What the receiver makes of it. */
  function Expect(o: Outgoing, r: Receiver): (p: Parsed)
    requires Sendable(o, r)
  {
    var n := |Build(o, r)|;
    if o.OutLong? then Parsed(o.Type(), o.long.scid, o.long.dcid, o.long.number, o.payload, n, false)
    else Parsed(Short, [], o.short.dcid, o.short.number, Padded(o.payload, o.Len()), n, o.short.keyPhase)
  }

  /** A short packet takes the rest of the datagram, so only the last may be short. */
  ghost predicate AllSendable(os: seq<Outgoing>, r: Receiver)
    decreases |os|
  {
    os == [] ||
    (Sendable(os[0], r) && (os[0].OutShort? ==> |os| == 1)
     && AllSendable(os[1..], r.Saw(Expect(os[0], r))))
  }

  function BuildAll(os: seq<Outgoing>, r: Receiver): (s: seq<byte>)
    requires AllSendable(os, r)
    decreases |os|
  {
    if os == [] then [] else Build(os[0], r) + BuildAll(os[1..], r.Saw(Expect(os[0], r)))
  }

  function ExpectAll(os: seq<Outgoing>, at: nat, r: Receiver): (ps: seq<Parsed>)
    requires AllSendable(os, r)
    decreases |os|
  {
    if os == [] then []
    else
      var n := |Build(os[0], r)|;
      [Shift(Expect(os[0], r), at)] + ExpectAll(os[1..], at + n, r.Saw(Expect(os[0], r)))
  }

  lemma ReceiveFront(o: Outgoing, r: Receiver, post: seq<byte>)
    requires Sendable(o, r) && (o.OutShort? ==> post == [])
    ensures var s := Build(o, r) + post;
            s != [] && s[0] != 0 && ReceiveOne(s, r) == Some(Expect(o, r))
  {
    var s := Build(o, r) + post;
    if o.OutLong? {
      var keys := r.KeysFor(o.Type()).value;
      LongLayout(o.long, o.payload, keys, post);
      LongRoundTrip(o.long, o.payload, keys, post, r.Largest(o.Type()));
      hide ParseLongHeader, ParseLong, LongPacket, Sound;
      assert s[0] == LongPacket(o.long, o.payload, keys)[0];
    } else {
      ShortRoundTrip(o.short, o.payload, r.KeysFor(Short).value, r.application);
      hide ParseShort, ShortPacket, Sound;
      assert s == Build(o, r);
    }
  }

  predicate EndsShort(os: seq<Outgoing>) { os != [] && os[|os| - 1].OutShort? }

  /** The receive loop takes the packet at the front and goes on behind it. */
  lemma ReceiveStep(o: Outgoing, r: Receiver, at: nat, rest: seq<byte>)
    requires Sendable(o, r) && (o.OutShort? ==> rest == [])
    ensures var front := Build(o, r);
            Receive(front + rest, at, r)
            == [Shift(Expect(o, r), at)] + Receive(rest, at + |front|, r.Saw(Expect(o, r)))
  {
    hide Build, ReceiveOne, Sendable, Receiver.Saw;
    ReceiveFront(o, r, rest);
    var front := Build(o, r);
    assert (front + rest)[|front|..] == rest;
  }

  /**
   * Any list of packets that fits the protocol, written one after the other into one
   * datagram and padded with zero octets, is received as that list, each with its own
   * type, connection IDs, number and payload.
   */
  lemma {:induction false} CoalescedRoundTrip(os: seq<Outgoing>, at: nat, r: Receiver, padding: nat)
    requires AllSendable(os, r) && (EndsShort(os) ==> padding == 0)
    ensures Receive(BuildAll(os, r) + F.Zeros(padding), at, r) == ExpectAll(os, at, r)
    decreases |os|
  {
    hide Build, ReceiveOne, Sendable, Receiver.Saw, Expect;
    var zeros := F.Zeros(padding);
    if os == [] {
      assert [] + zeros == zeros;
    } else {
      var o, tail := os[0], os[1..];
      var r' := r.Saw(Expect(o, r));
      var front, rest := Build(o, r), BuildAll(tail, r') + zeros;
      assert BuildAll(os, r) + zeros == front + rest;
      CoalescedRoundTrip(tail, at + |front|, r', padding);
      assert o.OutShort? ==> tail == [] && rest == [];
      hide Receive;
      ReceiveStep(o, r, at, rest);
    }
  }
}
