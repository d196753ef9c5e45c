/**
 * Protected packets (section 17 of RFC 9000, sections 5.3 and 5.4 of RFC 9001). The
 * parsers work on the rest of a datagram from the packet's first octet on, and report how
 * many octets the packet took. The ciphers are parameters.
 */
module Packets {
  import opened Common
  import opened Coding
  import opened PacketNumbers
  import opened HeaderProtection
  import F = Frames

  /** An AEAD for payloads and a mask function for headers. */
  datatype Keys = Keys(
    seal: (nat, seq<byte>, seq<byte>) -> seq<byte>,
    open: (nat, seq<byte>, seq<byte>) -> Option<seq<byte>>,
    mask: seq<byte> -> Mask)

  const TAG_LEN: nat := 16
  const SAMPLE_LEN: nat := 16
  const SAMPLE_OFFSET: nat := 4

  /** What is assumed of the ciphers: opening undoes sealing, and sealing adds a tag. */
  ghost predicate Sound(keys: Keys) {
    forall pn: nat, aad: seq<byte>, text: seq<byte> ::
      var sealed := keys.seal(pn, aad, text);
      |sealed| == |text| + TAG_LEN && keys.open(pn, aad, sealed) == Some(text)
  }

  datatype PacketError = Truncated | BadHeader(field: string) | Cipher | Version(version: nat)

  datatype Result<+T> = Ok(value: T) | Err(error: PacketError)

  datatype PacketType = Initial | ZeroRtt | Handshake | Retry | VersionNegotiation | Short

  function PacketTypeOf(first: byte, version: nat): (t: PacketType) {
    if !IsLong(first) then Short
    else if version == 0 then VersionNegotiation
    else match first / 16 % 4 case 0 => Initial case 1 => ZeroRtt case 2 => Handshake case _ => Retry
  }

  datatype LongType = InitialType | ZeroRttType | HandshakeType {
    function Bits(): (b: nat) {
      match this case InitialType => 0 case ZeroRttType => 1 case HandshakeType => 2
    }

    function Type(): (t: PacketType) {
      match this case InitialType => Initial case ZeroRttType => ZeroRtt case HandshakeType => Handshake
    }
  }

  datatype Parsed = Parsed(
    packetType: PacketType, scid: seq<byte>, dcid: seq<byte>, number: nat, payload: seq<byte>,
    consumed: nat, keyPhase: bool)

  // --------------------------------------------------------------------- building

  datatype BuildLong = BuildLong(
    longType: LongType, version: nat, dcid: seq<byte>, scid: seq<byte>, token: seq<byte>,
    number: nat, largestAcked: Option<nat>)
  {
    function Len(): (n: nat)
      ensures 1 <= n <= 4
    {
      PacketNumberLen(number, largestAcked)
    }
  }

  datatype BuildShort = BuildShort(dcid: seq<byte>, number: nat, largestAcked: Option<nat>, keyPhase: bool) {
    function Len(): (n: nat)
      ensures 1 <= n <= 4
    {
      PacketNumberLen(number, largestAcked)
    }
  }

  /** What any long header may hold: the limits of the wire format. */
  predicate Buildable(p: BuildLong) {
    p.version < 0x1_0000_0000 && |p.dcid| <= 20 && |p.scid| <= 20 && F.Fits(|p.token|)
  }

  function LongFirst(p: BuildLong): (b: byte) { 0xc0 + 16 * p.longType.Bits() + (p.Len() - 1) }

  /** The header octets between the first one and the Length field. */
  function LongMiddle(p: BuildLong): (s: seq<byte>)
    requires Buildable(p)
  {
    BigEndian(p.version, 4) + ([|p.dcid|] + (p.dcid + ([|p.scid|] + (p.scid
    + if p.longType.InitialType? then F.Counted(p.token) else []))))
  }

  /** The long header up to the packet number; Length counts the payload as handed in. */
  function LongHead(p: BuildLong, payloadLen: nat): (s: seq<byte>)
    requires Buildable(p)
    ensures s != [] && s[0] == LongFirst(p)
  {
    [LongFirst(p)] + (LongMiddle(p) + EncodeVarint(p.Len() + payloadLen + TAG_LEN))
  }

  function ShortHead(p: BuildShort): (s: seq<byte>) {
    [0x40 + (if p.keyPhase then 4 else 0) + (p.Len() - 1)] + p.dcid
  }

  /** The payload with PADDING frames, when it is too short to be sampled. */
  function Padded(payload: seq<byte>, pnLen: nat): (s: seq<byte>) {
    payload + F.Zeros(SatSub(SatSub(SAMPLE_OFFSET + SAMPLE_LEN, pnLen + TAG_LEN), |payload|))
  }

  /** Seals the payload under the header, then protects the header. */
  function Finish(head: seq<byte>, number: nat, pnLen: nat, payload: seq<byte>, keys: Keys): (s: seq<byte>)
    requires head != [] && 1 <= pnLen <= 4
    requires Sound(keys)
    ensures |s| == |head| + pnLen + |Padded(payload, pnLen)| + TAG_LEN
  {
    var header := head + EncodePacketNumber(number, pnLen);
    var raw := header + keys.seal(number, header, Padded(payload, pnLen));
    assert |keys.seal(number, header, Padded(payload, pnLen))| == |Padded(payload, pnLen)| + TAG_LEN;
    var sample := raw[|head| + SAMPLE_OFFSET..|head| + SAMPLE_OFFSET + SAMPLE_LEN];
    Masked(raw, |head|, pnLen, keys.mask(sample))
  }

  function LongPacket(p: BuildLong, payload: seq<byte>, keys: Keys): (s: seq<byte>)
    requires Buildable(p) && Sound(keys)
  {
    Finish(LongHead(p, |payload|), p.number, p.Len(), payload, keys)
  }

  function ShortPacket(p: BuildShort, payload: seq<byte>, keys: Keys): (s: seq<byte>)
    requires Sound(keys)
  {
    Finish(ShortHead(p), p.number, p.Len(), payload, keys)
  }

  // ---------------------------------------------------------------------- parsing

  datatype Layout = Layout(packetType: PacketType, version: nat, scid: seq<byte>, dcid: seq<byte>, pnAt: nat, end: nat)

  function ParseCid(s: seq<byte>, name: string): (r: Parse<seq<byte>>)
    ensures r.Done? ==> |r.rest| < |s|
  {
    var (len, s1) :- ParseU8(s);
    if len > 20 then Fail(Malformed(name)) else ParseBytes(s1, len)
  }

  /** Version and connection IDs, after the first octet. */
  function ParseFields(s: seq<byte>): (r: Parse<(nat, seq<byte>, seq<byte>)>)
    ensures r.Done? ==> |r.rest| < |s|
  {
    var (version, s1) :- ParseU32(s);
    var (dcid, s2) :- ParseCid(s1, "dcid too long");
    var (scid, s3) :- ParseCid(s2, "scid too long");
    Done((version, dcid, scid), s3)
  }

  /** The Length field, after the token that only Initial packets have. */
  function ParseLength(s: seq<byte>, initial: bool): (r: Parse<nat>)
    ensures r.Done? ==> |r.rest| < |s|
  {
    var (_, s1) :- if initial then F.ParseCounted(s) else Done([], s);
    ParseVarint(s1)
  }

  function ParseLongHeader(s: seq<byte>): (r: Parse<Layout>)
    requires s != []
    ensures r.Done? ==> 1 < r.value.pnAt <= r.value.end <= |s|
  {
    var (f, s1) :- ParseFields(s[1..]);
    var packetType := PacketTypeOf(s[0], f.0);
    var (length, s3) :- ParseLength(s1, packetType.Initial?);
    var pnAt := |s| - |s3|;
    if pnAt + length > |s| then Fail(UnexpectedEnd)
    else Done(Layout(packetType, f.0, f.2, f.1, pnAt, pnAt + length), s3)
  }

  /** Removes header protection from a packet that is long enough to be sampled. */
  function Unmask(s: seq<byte>, pnAt: nat, mask: seq<byte> -> Mask): (clear: seq<byte>)
    requires 0 < pnAt && pnAt + SAMPLE_OFFSET + SAMPLE_LEN <= |s|
    ensures |clear| == |s|
  {
    var m := mask(s[pnAt + SAMPLE_OFFSET..pnAt + SAMPLE_OFFSET + SAMPLE_LEN]);
    Masked(s, pnAt, PnLen(MaskFirst(s[0], m[0])), m)
  }

  /** Recovers the packet number and opens the payload of a packet in the clear. */
  function Decrypt(clear: seq<byte>, pnAt: nat, end: nat, largest: Option<nat>, keys: Keys)
    : (r: Result<(nat, seq<byte>)>)
    requires clear != [] && 0 < pnAt && pnAt + PnLen(clear[0]) <= end <= |clear|
  {
    var n := PnLen(clear[0]);
    var number := DecodePacketNumber(largest, FromBigEndian(clear[pnAt..pnAt + n]), n);
    match keys.open(number, clear[..pnAt + n], clear[pnAt + n..end])
    case None => Err(Cipher)
    case Some(text) => Ok((number, text))
  }

  function Unprotect(s: seq<byte>, pnAt: nat, end: nat, largest: Option<nat>, keys: Keys)
    : (r: Result<(nat, seq<byte>, byte)>)
    requires 0 < pnAt <= end <= |s|
  {
    if pnAt + SAMPLE_OFFSET + SAMPLE_LEN > end then Err(Truncated)
    else
      var clear := Unmask(s, pnAt, keys.mask);
      match Decrypt(clear, pnAt, end, largest, keys)
      case Err(e) => Err(e)
      case Ok((number, text)) => Ok((number, text, clear[0]))
  }

  function ParseLong(s: seq<byte>, version: nat, largest: Option<nat>, keys: Keys): (r: Result<Parsed>)
    ensures r.Ok? ==> 0 < r.value.consumed <= |s|
  {
    if s == [] then Err(Truncated)
    else
      match ParseLongHeader(s)
      case Fail(UnexpectedEnd) => Err(Truncated)
      case Fail(Malformed(field)) => Err(BadHeader(field))
      case Done(l, _) =>
        if l.version != version then Err(Version(l.version))
        else
          match Unprotect(s, l.pnAt, l.end, largest, keys)
          case Err(e) => Err(e)
          case Ok((number, text, _)) => Ok(Parsed(l.packetType, l.scid, l.dcid, number, text, l.end, false))
  }

  predicate KeyPhase(first: byte) { first / 4 % 2 == 1 }

  function ParseShort(s: seq<byte>, cidLen: nat, largest: Option<nat>, keys: Keys): (r: Result<Parsed>)
    ensures r.Ok? ==> 0 < r.value.consumed <= |s|
  {
    if |s| < 1 + cidLen then Err(Truncated)
    else
      match Unprotect(s, 1 + cidLen, |s|, largest, keys)
      case Err(e) => Err(e)
      case Ok((number, text, first)) => Ok(Parsed(Short, [], s[1..1 + cidLen], number, text, |s|, KeyPhase(first)))
  }

  /** The first half of the two-step receive path: header protection only. */
  function Strip(s: seq<byte>, cidLen: nat, mask: seq<byte> -> Mask): (r: Result<seq<byte>>) {
    if s == [] || 1 + cidLen + SAMPLE_OFFSET + SAMPLE_LEN > |s| then Err(Truncated)
    else Ok(Unmask(s, 1 + cidLen, mask))
  }

  /** The second half, on a packet whose header is in the clear. */
  function DecryptBody(clear: seq<byte>, cidLen: nat, largest: Option<nat>, keys: Keys): (r: Result<Parsed>)
  {
    if |clear| < 1 + cidLen || 1 + cidLen + PnLen(clear[0]) > |clear| then Err(Truncated)
    else
      match Decrypt(clear, 1 + cidLen, |clear|, largest, keys)
      case Err(e) => Err(e)
      case Ok((number, text)) =>
        Ok(Parsed(Short, [], clear[1..1 + cidLen], number, text, |clear|, KeyPhase(clear[0])))
  }

  /** Choosing the packet key between the two halves gives the same result as one step. */
  lemma TwoStepsAreOne(s: seq<byte>, cidLen: nat, largest: Option<nat>, keys: Keys)
    ensures ParseShort(s, cidLen, largest, keys)
         == match Strip(s, cidLen, keys.mask)
            case Err(e) => Err(e)
            case Ok(clear) => DecryptBody(clear, cidLen, largest, keys)
  {
    hide Decrypt;
    if 1 + cidLen + SAMPLE_OFFSET + SAMPLE_LEN <= |s| {
      var clear := Unmask(s, 1 + cidLen, keys.mask);
      assert clear[1..1 + cidLen] == s[1..1 + cidLen];
    }
  }

  // ------------------------------------------------------------ coalesced datagrams

  /** The packets processed so far: their types and payloads. */
  type Processed = seq<(PacketType, seq<byte>)>

  /**
   * What the receive loop uses: the largest numbers seen, and the keys for each packet
   * type. Keys come from the handshake, so they depend on what was processed before, in
   * this datagram or earlier.
   */
  datatype Receiver = Receiver(
    version: nat, cidLen: nat, schedule: (Processed, PacketType) -> Option<Keys>, processed: Processed,
    initial: Option<nat>, handshake: Option<nat>, application: Option<nat>)
  {
    /** The keys installed by now for the packet type. */
    function KeysFor(t: PacketType): (k: Option<Keys>) { schedule(processed, t) }

    /** The largest number received in the space of the packet type. */
    function Largest(t: PacketType): (n: Option<nat>) {
      if t.Initial? then initial else if t.Handshake? then handshake else application
    }

    /** A packet was processed: its number is known, and new keys may be installed. */
    function Saw(p: Parsed): (r: Receiver) {
      var n := Some(MaxOpt(Largest(p.packetType), p.number));
      var r := this.(processed := processed + [(p.packetType, p.payload)]);
      if p.packetType.Initial? then r.(initial := n)
      else if p.packetType.Handshake? then r.(handshake := n)
      else r.(application := n)
    }
  }

  /** The packet at the front of `s`; None stops the loop. */
  function ReceiveOne(s: seq<byte>, r: Receiver): (out: Option<Parsed>)
    requires s != []
    ensures out.Some? ==> 0 < out.value.consumed <= |s|
  {
    if IsLong(s[0]) then
      match ParseLongHeader(s)
      case Fail(_) => None
      case Done(l, _) =>
        if l.packetType.Retry? || l.packetType.VersionNegotiation? || r.KeysFor(l.packetType).None? then None
        else
          match ParseLong(s, r.version, r.Largest(l.packetType), r.KeysFor(l.packetType).value)
          case Err(_) => None
          case Ok(p) => Some(p)
    else if r.KeysFor(Short).None? then None
    else
      match ParseShort(s, r.cidLen, r.application, r.KeysFor(Short).value)
      case Err(_) => None
      case Ok(p) => Some(p)
  }

  /** The packet with `consumed` counted from the start of the datagram. */
  function Shift(p: Parsed, at: nat): (r: Parsed) { p.(consumed := at + p.consumed) }

  /** The receive loop over the octets from `at` on: a zero octet starts trailing padding. */
  function Receive(s: seq<byte>, at: nat, r: Receiver): (out: seq<Parsed>)
    decreases |s|
  {
    if s == [] || s[0] == 0 then []
    else
      match ReceiveOne(s, r)
      case None => []
      case Some(p) => [Shift(p, at)] + Receive(s[p.consumed..], at + p.consumed, r.Saw(p))
  }

  // ------------------------------------------------------------------- round trips

  /** Removing protection restores the packet as it was before protection. */
  lemma UnmaskFinish(raw: seq<byte>, pnAt: nat, mask: seq<byte> -> Mask, post: seq<byte>)
    requires 0 < pnAt && pnAt + SAMPLE_OFFSET + SAMPLE_LEN <= |raw|
    ensures var m := mask(raw[pnAt + SAMPLE_OFFSET..pnAt + SAMPLE_OFFSET + SAMPLE_LEN]);
            Unmask(Masked(raw, pnAt, PnLen(raw[0]), m) + post, pnAt, mask) == raw + post
  {
    var m := mask(raw[pnAt + SAMPLE_OFFSET..pnAt + SAMPLE_OFFSET + SAMPLE_LEN]);
    var n := PnLen(raw[0]);
    var s := Masked(raw, pnAt, n, m) + post;
    assert s[pnAt + SAMPLE_OFFSET..pnAt + SAMPLE_OFFSET + SAMPLE_LEN]
        == raw[pnAt + SAMPLE_OFFSET..pnAt + SAMPLE_OFFSET + SAMPLE_LEN];
    MaskFirstLaws(raw[0], m[0]);
    assert s == Masked(raw + post, pnAt, n, m);
    MaskedTwice(raw + post, pnAt, n, m);
  }

  /** The number the receiver computes from what the sender puts on the wire. */
  predicate Recovers(number: nat, pnLen: nat, largest: Option<nat>) {
    DecodePacketNumber(largest, FromBigEndian(EncodePacketNumber(number, pnLen)), pnLen) == number
  }

  /** What `Finish` builds, `Unprotect` takes apart, whatever follows in the datagram. */
  lemma FinishRoundTrip(head: seq<byte>, number: nat, pnLen: nat, payload: seq<byte>, keys: Keys, post: seq<byte>,
                        largest: Option<nat>)
    requires head != [] && 1 <= pnLen <= 4 && PnLen(head[0]) == pnLen && Sound(keys)
    requires Recovers(number, pnLen, largest)
    ensures var s := Finish(head, number, pnLen, payload, keys);
            && |head| <= |s|
            && Unprotect(s + post, |head|, |s|, largest, keys) == Ok((number, Padded(payload, pnLen), head[0]))
  {
    hide Sound, Finish, Unmask, Masked, Padded, DecodePacketNumber, FromBigEndian, EncodePacketNumber, Decrypt;
    var header := head + EncodePacketNumber(number, pnLen);
    var text := Padded(payload, pnLen);
    var sealed := keys.seal(number, header, text);
    SealOpens(keys, number, header, text);
    var raw := header + sealed;
    FinishIsMasked(head, number, pnLen, payload, keys);
    assert raw[0] == head[0];
    UnmaskFinish(raw, |head|, keys.mask, post);
    NumberLength(number, pnLen);
    DecryptRaw(head, EncodePacketNumber(number, pnLen), sealed, post, number, text, largest, keys);
  }

  lemma SealOpens(keys: Keys, number: nat, header: seq<byte>, text: seq<byte>)
    requires Sound(keys)
    ensures |keys.seal(number, header, text)| == |text| + TAG_LEN
    ensures keys.open(number, header, keys.seal(number, header, text)) == Some(text)
  {
  }

  lemma NumberLength(number: nat, pnLen: nat)
    requires 1 <= pnLen <= 4
    ensures |EncodePacketNumber(number, pnLen)| == pnLen
  {
  }

  lemma FinishIsMasked(head: seq<byte>, number: nat, pnLen: nat, payload: seq<byte>, keys: Keys)
    requires head != [] && 1 <= pnLen <= 4 && Sound(keys)
    ensures var header := head + EncodePacketNumber(number, pnLen);
            var raw := header + keys.seal(number, header, Padded(payload, pnLen));
            && |raw| >= |head| + SAMPLE_OFFSET + SAMPLE_LEN
            && Finish(head, number, pnLen, payload, keys)
               == Masked(raw, |head|, pnLen,
                         keys.mask(raw[|head| + SAMPLE_OFFSET..|head| + SAMPLE_OFFSET + SAMPLE_LEN]))
  {
    var header := head + EncodePacketNumber(number, pnLen);
    assert |keys.seal(number, header, Padded(payload, pnLen))| == |Padded(payload, pnLen)| + TAG_LEN;
    hide Masked;
  }

  /** A packet in the clear, with its parts in place, is opened. */
  lemma DecryptRaw(head: seq<byte>, pn: seq<byte>, sealed: seq<byte>, post: seq<byte>, number: nat, text: seq<byte>,
                   largest: Option<nat>, keys: Keys)
    requires head != [] && |pn| == PnLen(head[0])
    requires DecodePacketNumber(largest, FromBigEndian(pn), |pn|) == number
    requires keys.open(number, head + pn, sealed) == Some(text)
    ensures Decrypt(((head + pn) + sealed) + post, |head|, |head| + |pn| + |sealed|, largest, keys)
         == Ok((number, text))
  {
    hide DecodePacketNumber, FromBigEndian;
    var clear := ((head + pn) + sealed) + post;
    assert clear[0] == head[0];
    assert clear[|head|..|head| + |pn|] == pn;
    assert clear[..|head| + |pn|] == head + pn;
    assert clear[|head| + |pn|..|head| + |pn| + |sealed|] == sealed;
  }
}
