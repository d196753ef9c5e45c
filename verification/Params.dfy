/**
 * Transport parameters (section 18 of RFC 9000): a list of identifier, length and value,
 * carried in the TLS handshake.
 */
module Params {
  import opened Common
  import opened Coding

  datatype TransportParams = TransportParams(
    idleTimeout: nat, udpPayload: nat, maxData: nat, streamDataBidiLocal: nat, streamDataBidiRemote: nat,
    streamDataUni: nat, streamsBidi: nat, streamsUni: nat, ackDelayExponent: nat, maxAckDelay: nat,
    cidLimit: nat, noMigration: bool, datagramSize: nat)

  const DEFAULT: TransportParams := TransportParams(0, 65527, 0, 0, 0, 0, 0, 0, 3, 25, 2, false, 0)

  const FLAG_ID: nat := 0x0c

  /** One parameter as it is on the wire. */
  datatype Triple = Triple(id: nat, value: seq<byte>)

  datatype ParamError = TruncatedId | TruncatedLength | LengthOverrun | NotVarint | TrailingBytes | FlagNotEmpty

  datatype Decoded<+T> = Ok(value: T) | Err(error: ParamError)

  predicate IsScalar(id: nat) { id in {0x01, 0x03, 0x04, 0x05, 0x06, 0x07, 0x08, 0x09, 0x0a, 0x0b, 0x0e, 0x20} }

  predicate IsKnown(id: nat) { IsScalar(id) || id == FLAG_ID }

  // --------------------------------------------------------------------- decoding

  function Assign(p: TransportParams, id: nat, v: nat): (r: TransportParams)
    requires IsScalar(id)
  {
    if id == 0x01 then p.(idleTimeout := v)
    else if id == 0x03 then p.(udpPayload := v)
    else if id == 0x04 then p.(maxData := v)
    else if id == 0x05 then p.(streamDataBidiLocal := v)
    else if id == 0x06 then p.(streamDataBidiRemote := v)
    else if id == 0x07 then p.(streamDataUni := v)
    else if id == 0x08 then p.(streamsBidi := v)
    else if id == 0x09 then p.(streamsUni := v)
    else if id == 0x0a then p.(ackDelayExponent := Min(v, 255))
    else if id == 0x0b then p.(maxAckDelay := v)
    else if id == 0x0e then p.(cidLimit := v)
    else p.(datagramSize := v)
  }

  /** A value that must be one integer and nothing else. */
  function ScalarValue(value: seq<byte>): (r: Decoded<nat>) {
    match ParseVarint(value)
    case Fail(_) => Err(NotVarint)
    case Done(v, rest) => if rest == [] then Ok(v) else Err(TrailingBytes)
  }

  /** The effect of one parameter; identifiers that are not known have none. */
  function Apply(p: TransportParams, t: Triple): (r: Decoded<TransportParams>) {
    if IsScalar(t.id) then
      match ScalarValue(t.value)
      case Err(e) => Err(e)
      case Ok(v) => Ok(Assign(p, t.id, v))
    else if t.id == FLAG_ID then
      if t.value == [] then Ok(p.(noMigration := true)) else Err(FlagNotEmpty)
    else Ok(p)
  }

  function ParseTriple(s: seq<byte>): (r: Decoded<(Triple, seq<byte>)>)
    ensures r.Ok? ==> |r.value.1| < |s|
  {
    match ParseVarint(s)
    case Fail(_) => Err(TruncatedId)
    case Done(id, s1) =>
      match ParseVarint(s1)
      case Fail(_) => Err(TruncatedLength)
      case Done(len, s2) =>
        match ParseBytes(s2, len)
        case Fail(_) => Err(LengthOverrun)
        case Done(value, s3) => Ok((Triple(id, value), s3))
  }

  /** The decoding loop, with the parameters set so far. */
  function DecodeFrom(p: TransportParams, s: seq<byte>): (r: Decoded<TransportParams>)
    decreases |s|
  {
    if s == [] then Ok(p)
    else
      match ParseTriple(s)
      case Err(e) => Err(e)
      case Ok((t, rest)) =>
        match Apply(p, t)
        case Err(e) => Err(e)
        case Ok(p') => DecodeFrom(p', rest)
  }

  function Decode(s: seq<byte>): (r: Decoded<TransportParams>) { DecodeFrom(DEFAULT, s) }

  // --------------------------------------------------------------------- encoding

  function EncodeTriple(t: Triple): (s: seq<byte>) { EncodeVarint(t.id) + (EncodeVarint(|t.value|) + t.value) }

  function EncodeTriples(ts: seq<Triple>): (s: seq<byte>) {
    if ts == [] then [] else EncodeTriple(ts[0]) + EncodeTriples(ts[1..])
  }

  function Scalar(id: nat, v: nat): (t: Triple) { Triple(id, EncodeVarint(v)) }

  function Optional(t: Triple, present: bool): (ts: seq<Triple>) { if present then [t] else [] }

  /** The parameters that are sent, in order; zeros that are the default are left out. */
  function Triples(p: TransportParams): (ts: seq<Triple>) {
    Optional(Scalar(0x01, p.idleTimeout), p.idleTimeout != 0)
    + (Optional(Scalar(0x03, p.udpPayload), true)
    + (Optional(Scalar(0x04, p.maxData), p.maxData != 0)
    + Middle(p)))
  }

  function Middle(p: TransportParams): (ts: seq<Triple>) {
    Optional(Scalar(0x05, p.streamDataBidiLocal), p.streamDataBidiLocal != 0)
    + (Optional(Scalar(0x06, p.streamDataBidiRemote), p.streamDataBidiRemote != 0)
    + (Optional(Scalar(0x07, p.streamDataUni), p.streamDataUni != 0)
    + (Optional(Scalar(0x08, p.streamsBidi), p.streamsBidi != 0)
    + (Optional(Scalar(0x09, p.streamsUni), p.streamsUni != 0)
    + Last(p)))))
  }

  function Last(p: TransportParams): (ts: seq<Triple>) {
    Optional(Scalar(0x0a, p.ackDelayExponent), true)
    + (Optional(Scalar(0x0b, p.maxAckDelay), true)
    + (Optional(Scalar(0x0e, p.cidLimit), true)
    + (Optional(Triple(FLAG_ID, []), p.noMigration)
    + Optional(Scalar(0x20, p.datagramSize), p.datagramSize != 0))))
  }

  function Encode(p: TransportParams): (s: seq<byte>) { EncodeTriples(Triples(p)) }

  // ------------------------------------------------------------------- round trip

  predicate TripleFits(t: Triple) { t.id <= VARINT_MAX && |t.value| <= VARINT_MAX }

  lemma TripleRoundTrip(t: Triple, rest: seq<byte>)
    requires TripleFits(t)
    ensures ParseTriple(EncodeTriple(t) + rest) == Ok((t, rest)) && EncodeTriple(t) + rest != []
  {
    var body := t.value + rest;
    var len := EncodeVarint(|t.value|);
    assert EncodeTriple(t) + rest == EncodeVarint(t.id) + (len + body);
    VarintRoundTrip(t.id, len + body);
    VarintRoundTrip(|t.value|, body);
    assert body[..|t.value|] == t.value && body[|t.value|..] == rest;
    hide EncodeVarint, ParseVarint;
  }

  /** The effect of a list of parameters. */
  function ApplyAll(p: TransportParams, ts: seq<Triple>): (r: Decoded<TransportParams>)
    decreases |ts|
  {
    if ts == [] then Ok(p)
    else
      match Apply(p, ts[0])
      case Err(e) => Err(e)
      case Ok(p') => ApplyAll(p', ts[1..])
  }

  /** Decoding an encoded list has the effect of the list. */
  lemma {:induction false} DecodeTriples(p: TransportParams, ts: seq<Triple>)
    requires AllFit(ts)
    ensures DecodeFrom(p, EncodeTriples(ts)) == ApplyAll(p, ts)
    decreases |ts|
  {
    if ts != [] {
      TripleRoundTrip(ts[0], EncodeTriples(ts[1..]));
      hide ParseTriple, EncodeTriple, Apply;
      match Apply(p, ts[0])
      case Err(_) =>
      case Ok(p') => DecodeTriples(p', ts[1..]);
    }
  }

  function Clamp(v: nat): (r: nat) { Min(v, VARINT_MAX) }

  lemma ScalarRoundTrip(v: nat)
    ensures ScalarValue(EncodeVarint(v)) == Ok(Clamp(v)) && |EncodeVarint(v)| <= 8
  {
    VarintRoundTrip(Clamp(v), []);
    assert EncodeVarint(v) == EncodeVarint(Clamp(v)) && EncodeVarint(v) + [] == EncodeVarint(v);
  }

  lemma ApplyScalar(p: TransportParams, id: nat, v: nat, present: bool, rest: seq<Triple>)
    requires IsScalar(id)
    ensures ApplyAll(p, Optional(Scalar(id, v), present) + rest)
         == ApplyAll(if present then Assign(p, id, Clamp(v)) else p, rest)
    ensures TripleFits(Scalar(id, v))
  {
    ScalarRoundTrip(v);
    hide EncodeVarint, ScalarValue, Assign;
    var ts := Optional(Scalar(id, v), present) + rest;
    if present {
      assert ts[0] == Scalar(id, v) && ts[1..] == rest;
    } else {
      assert ts == rest;
    }
  }

  lemma ApplyFlag(p: TransportParams, present: bool, rest: seq<Triple>)
    ensures ApplyAll(p, Optional(Triple(FLAG_ID, []), present) + rest)
         == ApplyAll(if present then p.(noMigration := true) else p, rest)
  {
    var ts := Optional(Triple(FLAG_ID, []), present) + rest;
    if present {
      assert ts[0] == Triple(FLAG_ID, []) && ts[1..] == rest;
    } else {
      assert ts == rest;
    }
  }

  /** Every value cut to what the wire can carry. */
  function Clamped(p: TransportParams): (r: TransportParams) {
    TransportParams(
      Clamp(p.idleTimeout), Clamp(p.udpPayload), Clamp(p.maxData), Clamp(p.streamDataBidiLocal),
      Clamp(p.streamDataBidiRemote), Clamp(p.streamDataUni), Clamp(p.streamsBidi), Clamp(p.streamsUni),
      p.ackDelayExponent, Clamp(p.maxAckDelay), Clamp(p.cidLimit), p.noMigration, Clamp(p.datagramSize))
  }

  lemma ApplyLast(q: TransportParams, p: TransportParams)
    requires p.ackDelayExponent < 256 && q.datagramSize == 0 && !q.noMigration
    ensures ApplyAll(q, Last(p))
         == Ok(q.(ackDelayExponent := p.ackDelayExponent, maxAckDelay := Clamp(p.maxAckDelay),
                  cidLimit := Clamp(p.cidLimit), noMigration := p.noMigration, datagramSize := Clamp(p.datagramSize)))
  {
    hide Scalar, Optional;
    var d := Optional(Scalar(0x20, p.datagramSize), p.datagramSize != 0);
    var f := Optional(Triple(FLAG_ID, []), p.noMigration) + d;
    var c := Optional(Scalar(0x0e, p.cidLimit), true) + f;
    var a := Optional(Scalar(0x0b, p.maxAckDelay), true) + c;
    var q1 := q.(ackDelayExponent := p.ackDelayExponent);
    ApplyScalar(q, 0x0a, p.ackDelayExponent, true, a);
    var q2 := q1.(maxAckDelay := Clamp(p.maxAckDelay));
    ApplyScalar(q1, 0x0b, p.maxAckDelay, true, c);
    var q3 := q2.(cidLimit := Clamp(p.cidLimit));
    ApplyScalar(q2, 0x0e, p.cidLimit, true, f);
    var q4 := q3.(noMigration := p.noMigration);
    ApplyFlag(q3, p.noMigration, d);
    assert d == d + [];
    ApplyScalar(q4, 0x20, p.datagramSize, p.datagramSize != 0, []);
  }

  lemma ApplyMiddle(q: TransportParams, p: TransportParams)
    requires q.streamDataBidiLocal == q.streamDataBidiRemote == q.streamDataUni == q.streamsBidi == q.streamsUni == 0
    ensures ApplyAll(q, Middle(p))
         == ApplyAll(q.(streamDataBidiLocal := Clamp(p.streamDataBidiLocal),
                        streamDataBidiRemote := Clamp(p.streamDataBidiRemote), streamDataUni := Clamp(p.streamDataUni),
                        streamsBidi := Clamp(p.streamsBidi), streamsUni := Clamp(p.streamsUni)), Last(p))
  {
    hide Scalar, Optional, Last;
    var e := Optional(Scalar(0x09, p.streamsUni), p.streamsUni != 0) + Last(p);
    var d := Optional(Scalar(0x08, p.streamsBidi), p.streamsBidi != 0) + e;
    var c := Optional(Scalar(0x07, p.streamDataUni), p.streamDataUni != 0) + d;
    var b := Optional(Scalar(0x06, p.streamDataBidiRemote), p.streamDataBidiRemote != 0) + c;
    var q1 := q.(streamDataBidiLocal := Clamp(p.streamDataBidiLocal));
    ApplyScalar(q, 0x05, p.streamDataBidiLocal, p.streamDataBidiLocal != 0, b);
    var q2 := q1.(streamDataBidiRemote := Clamp(p.streamDataBidiRemote));
    ApplyScalar(q1, 0x06, p.streamDataBidiRemote, p.streamDataBidiRemote != 0, c);
    var q3 := q2.(streamDataUni := Clamp(p.streamDataUni));
    ApplyScalar(q2, 0x07, p.streamDataUni, p.streamDataUni != 0, d);
    var q4 := q3.(streamsBidi := Clamp(p.streamsBidi));
    ApplyScalar(q3, 0x08, p.streamsBidi, p.streamsBidi != 0, e);
    ApplyScalar(q4, 0x09, p.streamsUni, p.streamsUni != 0, Last(p));
  }

  lemma ApplyOwn(p: TransportParams)
    requires p.ackDelayExponent < 256
    ensures ApplyAll(DEFAULT, Triples(p)) == Ok(Clamped(p))
  {
    hide Scalar, Optional;
    hide Middle;
    var c := Optional(Scalar(0x04, p.maxData), p.maxData != 0) + Middle(p);
    var b := Optional(Scalar(0x03, p.udpPayload), true) + c;
    var q1 := DEFAULT.(idleTimeout := Clamp(p.idleTimeout));
    ApplyScalar(DEFAULT, 0x01, p.idleTimeout, p.idleTimeout != 0, b);
    var q2 := q1.(udpPayload := Clamp(p.udpPayload));
    ApplyScalar(q1, 0x03, p.udpPayload, true, c);
    var q3 := q2.(maxData := Clamp(p.maxData));
    ApplyScalar(q2, 0x04, p.maxData, p.maxData != 0, Middle(p));
    ApplyMiddle(q3, p);
    hide ApplyAll;
    ApplyLast(q3.(streamDataBidiLocal := Clamp(p.streamDataBidiLocal),
                  streamDataBidiRemote := Clamp(p.streamDataBidiRemote), streamDataUni := Clamp(p.streamDataUni),
                  streamsBidi := Clamp(p.streamsBidi), streamsUni := Clamp(p.streamsUni)), p);
  }

  predicate AllFit(ts: seq<Triple>) { forall i :: 0 <= i < |ts| ==> TripleFits(ts[i]) }

  lemma ScalarFits(id: nat, v: nat, present: bool, rest: seq<Triple>)
    requires id <= VARINT_MAX && AllFit(rest)
    ensures AllFit(Optional(Scalar(id, v), present) + rest)
  {
  }

  lemma LastFits(p: TransportParams)
    ensures AllFit(Last(p))
  {
    hide Scalar;
    var d := Optional(Scalar(0x20, p.datagramSize), p.datagramSize != 0);
    assert d == d + [];
    ScalarFits(0x20, p.datagramSize, p.datagramSize != 0, []);
    var f := Optional(Triple(FLAG_ID, []), p.noMigration) + d;
    assert AllFit(f);
    hide Optional, AllFit;
    var c := Optional(Scalar(0x0e, p.cidLimit), true) + f;
    ScalarFits(0x0e, p.cidLimit, true, f);
    ScalarFits(0x0b, p.maxAckDelay, true, c);
    ScalarFits(0x0a, p.ackDelayExponent, true, Optional(Scalar(0x0b, p.maxAckDelay), true) + c);
  }

  lemma MiddleFits(p: TransportParams)
    ensures AllFit(Middle(p))
  {
    LastFits(p);
    hide Scalar, Optional, AllFit, Last;
    var e := Optional(Scalar(0x09, p.streamsUni), p.streamsUni != 0) + Last(p);
    var d := Optional(Scalar(0x08, p.streamsBidi), p.streamsBidi != 0) + e;
    var c := Optional(Scalar(0x07, p.streamDataUni), p.streamDataUni != 0) + d;
    ScalarFits(0x09, p.streamsUni, p.streamsUni != 0, Last(p));
    ScalarFits(0x08, p.streamsBidi, p.streamsBidi != 0, e);
    ScalarFits(0x07, p.streamDataUni, p.streamDataUni != 0, d);
    ScalarFits(0x06, p.streamDataBidiRemote, p.streamDataBidiRemote != 0, c);
    ScalarFits(0x05, p.streamDataBidiLocal, p.streamDataBidiLocal != 0,
               Optional(Scalar(0x06, p.streamDataBidiRemote), p.streamDataBidiRemote != 0) + c);
  }

  lemma TriplesFit(p: TransportParams)
    ensures AllFit(Triples(p))
  {
    MiddleFits(p);
    hide Scalar, Optional, AllFit, Middle;
    var c := Optional(Scalar(0x04, p.maxData), p.maxData != 0) + Middle(p);
    ScalarFits(0x04, p.maxData, p.maxData != 0, Middle(p));
    ScalarFits(0x03, p.udpPayload, true, c);
    ScalarFits(0x01, p.idleTimeout, p.idleTimeout != 0, Optional(Scalar(0x03, p.udpPayload), true) + c);
  }

  /**
   * Any parameters survive the wire, cut to 62 bits; they survive unchanged exactly when
   * every value fits. The exponent is an octet in the source's type.
   */
  lemma ParamsRoundTrip(p: TransportParams)
    requires p.ackDelayExponent < 256
    ensures Decode(Encode(p)) == Ok(Clamped(p))
    ensures Decode(Encode(p)) == Ok(p) <==> Clamped(p) == p
  {
    TriplesFit(p);
    DecodeTriples(DEFAULT, Triples(p));
    ApplyOwn(p);
    hide DecodeFrom, Triples, ApplyAll, EncodeTriples;
  }

  // ------------------------------------------------------------ unknown parameters

  /** `s` is a whole number of parameters, however they are encoded. */
  predicate Boundary(s: seq<byte>)
    decreases |s|
  {
    s == [] || (ParseTriple(s).Ok? && Boundary(ParseTriple(s).value.1))
  }

  lemma TripleExtends(s: seq<byte>, more: seq<byte>)
    requires ParseTriple(s).Ok?
    ensures ParseTriple(s + more) == Ok((ParseTriple(s).value.0, ParseTriple(s).value.1 + more))
  {
    VarintExtends(s, more);
    var s1 := ParseVarint(s).rest;
    VarintExtends(s1, more);
    hide ParseVarint;
    var Done(len, s2) := ParseVarint(s1);
    BytesExtend(s2, more, len);
  }

  /**
   * A parameter with an unknown identifier, put between any two parameters, changes
   * nothing: neither the decoded values nor any error.
   */
  lemma {:induction false} UnknownIgnored(p: TransportParams, a: seq<byte>, t: seq<byte>, b: seq<byte>)
    requires Boundary(a) && t != []
    requires ParseTriple(t).Ok? && ParseTriple(t).value.1 == [] && !IsKnown(ParseTriple(t).value.0.id)
    ensures DecodeFrom(p, a + (t + b)) == DecodeFrom(p, a + b)
    decreases |a|
  {
    hide ParseTriple;
    if a == [] {
      TripleExtends(t, b);
      assert a + (t + b) == t + b && a + b == b && [] + b == b;
    } else {
      var (first, rest) := ParseTriple(a).value;
      TripleExtends(a, t + b);
      TripleExtends(a, b);
      hide Boundary;
      match Apply(p, first)
      case Err(_) =>
      case Ok(p') =>
        UnknownIgnored(p', rest, t, b);
    }
  }

  // ------------------------------------------------------------------- the wire form

  /** A value must be one integer, in any of its forms, and nothing else. */
  lemma ScalarExact(p: TransportParams, id: nat, v: nat, n: nat, more: seq<byte>, k: nat)
    requires IsScalar(id) && n in {1, 2, 4, 8} && v < 64 * Pow256(n - 1) && k < n && more != []
    ensures Apply(p, Triple(id, Form(v, n))) == Ok(Assign(p, id, v))
    ensures Apply(p, Triple(id, Form(v, n) + more)) == Err(TrailingBytes)
    ensures Apply(p, Triple(id, Form(v, n)[..k])) == Err(NotVarint)
  {
    AnyForm(v, n, [], k);
    AnyForm(v, n, more, k);
    assert Form(v, n) + [] == Form(v, n);
    hide ParseVarint, Form, Assign;
  }

  /** The one value that is cut: an exponent of more than an octet. */
  lemma ExponentCut(p: TransportParams, v: nat)
    ensures Assign(p, 0x0a, v).ackDelayExponent <= 255
    ensures v <= 255 ==> Assign(p, 0x0a, v).ackDelayExponent == v
    ensures Assign(p, 0x0a, v) == p.(ackDelayExponent := Assign(p, 0x0a, v).ackDelayExponent)
  {
  }

  /** The flag has no value, and an unknown parameter has no effect whatever its value is. */
  lemma FlagExact(p: TransportParams, value: seq<byte>, id: nat)
    ensures Apply(p, Triple(FLAG_ID, value)) == if value == [] then Ok(p.(noMigration := true)) else Err(FlagNotEmpty)
    ensures id !in {0x01, 0x03, 0x04, 0x05, 0x06, 0x07, 0x08, 0x09, 0x0a, 0x0b, 0x0c, 0x0e, 0x20} ==>
              Apply(p, Triple(id, value)) == Ok(p)
  {
  }

  /** Octets that do not split into whole parameters are refused. */
  lemma {:induction false} OnlyWhole(p: TransportParams, s: seq<byte>)
    requires DecodeFrom(p, s).Ok?
    ensures Boundary(s)
    decreases |s|
  {
    hide ParseTriple, Apply;
    if s != [] {
      OnlyWhole(Apply(p, ParseTriple(s).value.0).value, ParseTriple(s).value.1);
    }
  }

  lemma TripleOctets(id: nat, v: nat)
    requires id < 0x40 && v < 0x40
    ensures EncodeTriple(Scalar(id, v)) == [id, 1, v] && EncodeTriple(Triple(id, [])) == [id, 0]
  {
    EncodeVarint1(id);
    EncodeVarint1(v);
    EncodeVarint1(1);
    EncodeVarint1(0);
    hide EncodeVarint;
  }

  lemma PresentFirst(t: Triple, rest: seq<Triple>)
    ensures EncodeTriples(Optional(t, true) + rest) == EncodeTriple(t) + EncodeTriples(rest)
  {
    assert (Optional(t, true) + rest)[1..] == rest;
  }

  lemma ScalarFirst(id: nat, v: nat, present: bool, rest: seq<Triple>)
    requires id < 0x40 && v < 0x40
    ensures EncodeTriples(Optional(Scalar(id, v), present) + rest)
         == (if present then [id, 1, v] else []) + EncodeTriples(rest)
  {
    TripleOctets(id, v);
    hide EncodeTriple, Scalar;
    if present {
      PresentFirst(Scalar(id, v), rest);
    } else {
      assert Optional(Scalar(id, v), present) + rest == rest;
    }
  }

  lemma NoTriples(t: Triple)
    ensures EncodeTriples([]) == [] && Optional(t, true) + [] == Optional(t, true)
  {
  }

  /** The octets of the last five parameters, for values that take one octet. */
  lemma LastOctets(p: TransportParams)
    requires p.ackDelayExponent < 0x40 && p.maxAckDelay < 0x40 && p.cidLimit < 0x40 && 0 < p.datagramSize < 0x40
    requires p.noMigration
    ensures EncodeTriples(Last(p))
         == [0x0a, 1, p.ackDelayExponent, 0x0b, 1, p.maxAckDelay, 0x0e, 1, p.cidLimit, 0x0c, 0, 0x20, 1, p.datagramSize]
  {
    hide EncodeTriples, EncodeTriple, Scalar, Optional;
    var d := Optional(Scalar(0x20, p.datagramSize), true);
    NoTriples(Scalar(0x20, p.datagramSize));
    ScalarFirst(0x20, p.datagramSize, true, []);
    var f := Optional(Triple(FLAG_ID, []), true) + d;
    PresentFirst(Triple(FLAG_ID, []), d);
    TripleOctets(0x0c, 0);
    var c := Optional(Scalar(0x0e, p.cidLimit), true) + f;
    ScalarFirst(0x0e, p.cidLimit, true, f);
    var b := Optional(Scalar(0x0b, p.maxAckDelay), true) + c;
    ScalarFirst(0x0b, p.maxAckDelay, true, c);
    ScalarFirst(0x0a, p.ackDelayExponent, true, b);
  }

  /** The same for the limits on streams. */
  lemma MiddleOctets(p: TransportParams)
    requires 0 < p.streamDataBidiLocal < 0x40 && 0 < p.streamDataBidiRemote < 0x40 && 0 < p.streamDataUni < 0x40
    requires 0 < p.streamsBidi < 0x40 && 0 < p.streamsUni < 0x40
    ensures EncodeTriples(Middle(p))
         == [0x05, 1, p.streamDataBidiLocal, 0x06, 1, p.streamDataBidiRemote, 0x07, 1, p.streamDataUni,
             0x08, 1, p.streamsBidi, 0x09, 1, p.streamsUni] + EncodeTriples(Last(p))
  {
    hide Last, EncodeTriples, Scalar, Optional;
    var h := Optional(Scalar(0x09, p.streamsUni), true) + Last(p);
    ScalarFirst(0x09, p.streamsUni, true, Last(p));
    var g := Optional(Scalar(0x08, p.streamsBidi), true) + h;
    ScalarFirst(0x08, p.streamsBidi, true, h);
    var f := Optional(Scalar(0x07, p.streamDataUni), true) + g;
    ScalarFirst(0x07, p.streamDataUni, true, g);
    var e := Optional(Scalar(0x06, p.streamDataBidiRemote), true) + f;
    ScalarFirst(0x06, p.streamDataBidiRemote, true, f);
    ScalarFirst(0x05, p.streamDataBidiLocal, true, e);
  }

  /** And for the first ones; the identifiers are those of section 18.2 of RFC 9000. */
  lemma FirstOctets(p: TransportParams)
    requires 0 < p.idleTimeout < 0x40 && p.udpPayload < 0x40 && 0 < p.maxData < 0x40
    ensures Encode(p)
         == [0x01, 1, p.idleTimeout, 0x03, 1, p.udpPayload, 0x04, 1, p.maxData] + EncodeTriples(Middle(p))
  {
    hide Middle, EncodeTriples, Scalar, Optional;
    var c := Optional(Scalar(0x04, p.maxData), true) + Middle(p);
    ScalarFirst(0x04, p.maxData, true, Middle(p));
    var b := Optional(Scalar(0x03, p.udpPayload), true) + c;
    ScalarFirst(0x03, p.udpPayload, true, c);
    ScalarFirst(0x01, p.idleTimeout, true, b);
  }

  lemma DefaultTriples()
    ensures Triples(DEFAULT) == [Scalar(0x03, 65527)] + ([Scalar(0x0a, 3)] + ([Scalar(0x0b, 25)] + [Scalar(0x0e, 2)]))
  {
    hide Scalar;
    assert Last(DEFAULT) == [Scalar(0x0a, 3)] + ([Scalar(0x0b, 25)] + [Scalar(0x0e, 2)]);
    assert Middle(DEFAULT) == Last(DEFAULT);
    hide Last, Middle;
  }

  lemma EncodeFirst(t: Triple, rest: seq<Triple>)
    ensures EncodeTriples([t] + rest) == EncodeTriple(t) + EncodeTriples(rest)
    ensures EncodeTriples([t]) == EncodeTriple(t)
  {
    assert ([t] + rest)[1..] == rest && [t][1..] == [];
    assert EncodeTriples([]) == [];
  }

  lemma PayloadOctets()
    ensures EncodeTriple(Scalar(0x03, 65527)) == [0x03, 4, 0x80, 0x00, 0xff, 0xf7]
  {
    EncodeVarint1(0x03);
    EncodeVarint1(4);
    EncodeVarint4(65527);
    hide EncodeVarint;
  }

  /** Zeros that are the default are not sent; the other defaults are. */
  lemma DefaultOctets()
    ensures Encode(DEFAULT) == [0x03, 4, 0x80, 0x00, 0xff, 0xf7, 0x0a, 1, 3, 0x0b, 1, 25, 0x0e, 1, 2]
  {
    hide EncodeTriples, EncodeTriple, Scalar, Triples;
    DefaultTriples();
    PayloadOctets();
    TripleOctets(0x0a, 3);
    TripleOctets(0x0b, 25);
    TripleOctets(0x0e, 2);
    var c := [Scalar(0x0e, 2)];
    var b := [Scalar(0x0b, 25)] + c;
    EncodeFirst(Scalar(0x0e, 2), []);
    EncodeFirst(Scalar(0x0b, 25), c);
    EncodeFirst(Scalar(0x0a, 3), b);
    EncodeFirst(Scalar(0x03, 65527), [Scalar(0x0a, 3)] + b);
  }

  /** What a peer that sends nothing has: the defaults of section 18.2 of RFC 9000. */
  lemma Defaults()
    ensures Decode([]).Ok?
    ensures var p := Decode([]).value;
            && p.udpPayload == 65527 && p.ackDelayExponent == 3 && p.maxAckDelay == 25 && p.cidLimit == 2
            && p.idleTimeout == p.maxData == p.streamsBidi == p.streamsUni == p.datagramSize == 0
            && p.streamDataBidiLocal == p.streamDataBidiRemote == p.streamDataUni == 0 && !p.noMigration
  {
  }

  // ------------------------------------------------------------------------ as run

  method PutVarintParam(out: Sink, id: nat, v: nat)
    requires id <= VARINT_MAX
    modifies out
    ensures out.bytes == old(out.bytes) + EncodeTriple(Scalar(id, v))
  {
    hide EncodeVarint;
    out.PutVarint(id);
    out.PutVarint(VarintSize(v));
    SizeOfClamped(v);
    out.PutVarint(v);
    assert old(out.bytes) + EncodeVarint(id) + EncodeVarint(VarintSize(v)) + EncodeVarint(v)
        == old(out.bytes) + (EncodeVarint(id) + (EncodeVarint(VarintSize(v)) + EncodeVarint(v)));
  }

  lemma SizeOfClamped(v: nat)
    ensures |EncodeVarint(v)| == VarintSize(v)
  {
  }

  lemma {:induction false} EncodeSnoc(ts: seq<Triple>, t: Triple)
    ensures EncodeTriples(ts + [t]) == EncodeTriples(ts) + EncodeTriple(t)
    decreases |ts|
  {
    hide EncodeTriple;
    if ts == [] {
      assert [t][1..] == [] && ts + [t] == [t];
    } else {
      assert (ts + [t])[1..] == ts[1..] + [t];
      EncodeSnoc(ts[1..], t);
    }
  }

  /** Writes a scalar if it is to be sent; `done` is what was written so far. */
  method PutOptional(out: Sink, id: nat, v: nat, present: bool, ghost done: seq<Triple>)
    returns (ghost all: seq<Triple>)
    requires id <= VARINT_MAX && out.bytes == EncodeTriples(done)
    modifies out
    ensures all == done + Optional(Scalar(id, v), present) && out.bytes == EncodeTriples(all)
  {
    hide EncodeTriples, Scalar;
    if present {
      PutVarintParam(out, id, v);
      EncodeSnoc(done, Scalar(id, v));
    }
    all := done + Optional(Scalar(id, v), present);
    assert !present ==> all == done;
  }

  method EncodeParams(p: TransportParams) returns (bytes: seq<byte>)
    ensures bytes == Encode(p)
  {
    hide EncodeTriples, EncodeTriple, Scalar, Last, Middle;
    var out := new Sink();
    ghost var none: seq<Triple> := [];
    EncodeNone();
    ghost var d1 := PutOptional(out, 0x01, p.idleTimeout, p.idleTimeout != 0, none);
    ghost var d2 := PutOptional(out, 0x03, p.udpPayload, true, d1);
    ghost var d3 := PutOptional(out, 0x04, p.maxData, p.maxData != 0, d2);
    ghost var d4 := EncodeMiddle(out, p, d3);
    hide Optional;
    assert d4 == Triples(p);
    bytes := out.bytes;
  }

  lemma EncodeNone()
    ensures EncodeTriples([]) == []
  {
  }

  method EncodeMiddle(out: Sink, p: TransportParams, ghost done: seq<Triple>) returns (ghost all: seq<Triple>)
    requires out.bytes == EncodeTriples(done)
    modifies out
    ensures all == done + Middle(p) && out.bytes == EncodeTriples(all)
  {
    hide EncodeTriples, EncodeTriple, Scalar, Last, Optional;
    ghost var d1 := PutOptional(out, 0x05, p.streamDataBidiLocal, p.streamDataBidiLocal != 0, done);
    ghost var d2 := PutOptional(out, 0x06, p.streamDataBidiRemote, p.streamDataBidiRemote != 0, d1);
    ghost var d3 := PutOptional(out, 0x07, p.streamDataUni, p.streamDataUni != 0, d2);
    ghost var d4 := PutOptional(out, 0x08, p.streamsBidi, p.streamsBidi != 0, d3);
    ghost var d5 := PutOptional(out, 0x09, p.streamsUni, p.streamsUni != 0, d4);
    all := EncodeLast(out, p, d5);
    Regroup(done, Optional(Scalar(0x05, p.streamDataBidiLocal), p.streamDataBidiLocal != 0),
            Optional(Scalar(0x06, p.streamDataBidiRemote), p.streamDataBidiRemote != 0),
            Optional(Scalar(0x07, p.streamDataUni), p.streamDataUni != 0),
            Optional(Scalar(0x08, p.streamsBidi), p.streamsBidi != 0),
            Optional(Scalar(0x09, p.streamsUni), p.streamsUni != 0), Last(p));
  }

  method EncodeLast(out: Sink, p: TransportParams, ghost done: seq<Triple>) returns (ghost all: seq<Triple>)
    requires out.bytes == EncodeTriples(done)
    modifies out
    ensures all == done + Last(p) && out.bytes == EncodeTriples(all)
  {
    hide EncodeTriples, EncodeTriple, Scalar;
    ghost var d1 := PutOptional(out, 0x0a, p.ackDelayExponent, true, done);
    ghost var d2 := PutOptional(out, 0x0b, p.maxAckDelay, true, d1);
    ghost var d3 := PutOptional(out, 0x0e, p.cidLimit, true, d2);
    ghost var d4 := PutFlag(out, p.noMigration, d3);
    all := PutOptional(out, 0x20, p.datagramSize, p.datagramSize != 0, d4);
    hide Optional;
    Regroup(done, Optional(Scalar(0x0a, p.ackDelayExponent), true), Optional(Scalar(0x0b, p.maxAckDelay), true),
            Optional(Scalar(0x0e, p.cidLimit), true), Optional(Triple(FLAG_ID, []), p.noMigration),
            Optional(Scalar(0x20, p.datagramSize), p.datagramSize != 0), []);
    assert all + [] == all;
    assert Last(p) + [] == Last(p);
  }

  method PutFlag(out: Sink, present: bool, ghost done: seq<Triple>) returns (ghost all: seq<Triple>)
    requires out.bytes == EncodeTriples(done)
    modifies out
    ensures all == done + Optional(Triple(FLAG_ID, []), present) && out.bytes == EncodeTriples(all)
  {
    hide EncodeTriples, EncodeVarint;
    if present {
      out.PutVarint(FLAG_ID);
      out.PutVarint(0);
      EncodeSnoc(done, Triple(FLAG_ID, []));
      assert EncodeTriple(Triple(FLAG_ID, [])) == EncodeVarint(FLAG_ID) + EncodeVarint(0);
    }
    all := done + Optional(Triple(FLAG_ID, []), present);
    assert !present ==> all == done;
  }

  lemma Regroup<T>(z: seq<T>, a: seq<T>, b: seq<T>, c: seq<T>, d: seq<T>, e: seq<T>, f: seq<T>)
    ensures z + a + b + c + d + e + f == z + (a + (b + (c + (d + (e + f)))))
  {
    assert c + (d + (e + f)) == c + d + e + f;
    assert z + (a + (b + (c + d + e + f))) == z + a + b + (c + d + e + f);
    assert z + a + b + (c + d + e + f) == z + a + b + c + d + e + f;
  }

  method DecodeScalar(value: seq<byte>) returns (r: Decoded<nat>)
    ensures r == ScalarValue(value)
  {
    var inner := new Buf(value);
    var v := inner.GetVarint();
    if v.Fail? {
      return Err(NotVarint);
    }
    if inner.pos < |inner.bytes| {
      assert inner.Rest() != [];
      return Err(TrailingBytes);
    }
    r := Ok(v.value);
  }

  method DecodeOne(buf: Buf) returns (r: Decoded<Triple>)
    requires buf.Valid() && buf.Rest() != []
    modifies buf
    ensures buf.Valid()
    ensures match ParseTriple(old(buf.Rest()))
            case Err(e) => r == Err(e)
            case Ok((t, rest)) => r == Ok(t) && buf.Rest() == rest && buf.pos > old(buf.pos)
  {
    hide ParseVarint;
    ghost var s := buf.Rest();
    var id := buf.GetVarint();
    if id.Fail? {
      return Err(TruncatedId);
    }
    var len := buf.GetVarint();
    if len.Fail? {
      return Err(TruncatedLength);
    }
    var value := buf.GetBytes(len.value);
    if value.Fail? {
      return Err(LengthOverrun);
    }
    assert |buf.Rest()| < |s|;
    r := Ok(Triple(id.value, value.value));
  }

  /** The decoding loop as it runs. */
  method DecodeParams(bytes: seq<byte>) returns (r: Decoded<TransportParams>)
    ensures r == Decode(bytes)
  {
    hide ParseTriple, Assign, ScalarValue;
    var params := DEFAULT;
    var buf := new Buf(bytes);
    while buf.pos < |buf.bytes|
      invariant buf.Valid() && fresh(buf)
      invariant DecodeFrom(params, buf.Rest()) == Decode(bytes)
      decreases |buf.bytes| - buf.pos
    {
      assert buf.Rest() != [];
      var t := DecodeOne(buf);
      if t.Err? {
        return Err(t.error);
      }
      if IsScalar(t.value.id) {
        var v := DecodeScalar(t.value.value);
        if v.Err? {
          return Err(v.error);
        }
        params := Assign(params, t.value.id, v.value);
      } else if t.value.id == FLAG_ID {
        if |t.value.value| > 0 {
          return Err(FlagNotEmpty);
        }
        params := params.(noMigration := true);
      }
    }
    assert buf.Rest() == [];
    r := Ok(params);
  }
}
