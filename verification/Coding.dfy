/**
 * Wire primitives: big-endian integers, variable-length integers (section 16 of
 * RFC 9000) and truncated packet numbers (section 17.1 and Appendix A of RFC 9000).
 */
module Coding {
  import opened Common

  const VARINT_MAX: nat := 0x3fff_ffff_ffff_ffff

  datatype CodecError = UnexpectedEnd | Malformed(detail: string)

  /** The outcome of reading one item off the front of a byte string. */
  datatype Parse<+T> = Done(value: T, rest: seq<byte>) | Fail(error: CodecError) {
    predicate IsFailure() { Fail? }

    function PropagateFailure<U>(): Parse<U>
      requires Fail?
    {
      Fail(error)
    }

    function Extract(): (T, seq<byte>)
      requires Done?
    {
      (value, rest)
    }
  }

  // ---------------------------------------------------------------- big-endian

  function Pow256(n: nat): (p: nat)
    ensures p > 0
  {
    if n == 0 then 1 else 256 * Pow256(n - 1)
  }

  lemma Pow256Values()
    ensures Pow256(1) == 0x100 && Pow256(2) == 0x1_0000 && Pow256(3) == 0x100_0000
    ensures Pow256(4) == 0x1_0000_0000 && Pow256(7) == 0x100_0000_0000_0000
  {
    assert Pow256(4) == 256 * Pow256(3);
    assert Pow256(5) == 256 * Pow256(4);
    assert Pow256(6) == 256 * Pow256(5);
  }

  /** The low `len` octets of `value`, most significant first. */
  function BigEndian(value: nat, len: nat): (s: seq<byte>)
    ensures |s| == len
  {
    if len == 0 then [] else BigEndian(value / 256, len - 1) + [value % 256]
  }

  function FromBigEndian(s: seq<byte>): (value: nat) {
    if s == [] then 0 else FromBigEndian(s[..|s| - 1]) * 256 + s[|s| - 1]
  }

  lemma {:induction false} FromBigEndianBound(s: seq<byte>)
    ensures FromBigEndian(s) < Pow256(|s|)
  {
    if s != [] {
      FromBigEndianBound(s[..|s| - 1]);
    }
  }

  lemma {:induction false} ModPow256(value: nat, n: nat)
    ensures value % (256 * Pow256(n)) == (value / 256) % Pow256(n) * 256 + value % 256
  {
    var p, q, r := Pow256(n), value / 256, value % 256;
    var a, b := q / p, q % p;
    assert q == a * p + b;
    assert value == a * (256 * p) + (b * 256 + r);
    assert 0 <= b * 256 + r < 256 * p;
    ModUnique(value, 256 * p, a, b * 256 + r);
  }

  lemma ModUnique(x: nat, m: nat, q: nat, r: nat)
    requires 0 <= r < m && x == q * m + r
    ensures x / m == q && x % m == r
  {
    var d := x / m - q;
    assert m * d == r - x % m by {
      assert x == m * (x / m) + x % m;
    }
    MulAtLeast(m, d);
  }

  lemma MulAtLeast(m: nat, d: int)
    ensures d >= 1 ==> m * d >= m
    ensures d <= -1 ==> m * d + m <= 0
  {
    if d >= 1 {
      assert m * (d - 1) >= 0;
    } else if d <= -1 {
      assert m * (-d - 1) >= 0;
    }
  }

  lemma DivDiv(v: nat, a: nat, b: nat)
    requires a > 0 && b > 0
    ensures a * b > 0 && v / a / b == v / (a * b)
  {
    DivDivParts(v, a, b, v / a, v % a, v / a / b, v / a % b);
  }

  lemma DivDivParts(v: nat, a: nat, b: nat, x: nat, s: nat, q: nat, t: nat)
    requires v == x * a + s && x == q * b + t && s < a && t < b
    ensures a * b > 0 && v / (a * b) == q
  {
    Regroup(q, b, t, a, s);
    Product(b - 1 - t, a);
    ModUnique(v, a * b, q, t * a + s);
  }

  lemma Product(x: nat, y: nat)
    ensures x * y >= 0
  {
  }

  lemma Regroup(q: nat, b: nat, t: nat, a: nat, s: nat)
    requires a > 0 && b > 0
    ensures a * b > 0
    ensures (q * b + t) * a + s == q * (a * b) + (t * a + s)
    ensures (b - 1 - t) * a == a * b - a - t * a
  {
    assert q * b * a == q * (a * b);
  }

  /** Truncating to `len` octets keeps exactly the value modulo 256^len. */
  lemma {:induction false} BigEndianValue(value: nat, len: nat)
    ensures FromBigEndian(BigEndian(value, len)) == value % Pow256(len)
  {
    if len != 0 {
      var s := BigEndian(value, len);
      assert s[..|s| - 1] == BigEndian(value / 256, len - 1);
      BigEndianValue(value / 256, len - 1);
      ModPow256(value, len - 1);
    }
  }

  /** Octets are recovered from the value and the length. */
  lemma {:induction false} BigEndianInverse(s: seq<byte>)
    ensures BigEndian(FromBigEndian(s), |s|) == s
  {
    if s != [] {
      BigEndianInverse(s[..|s| - 1]);
      assert FromBigEndian(s) / 256 == FromBigEndian(s[..|s| - 1]);
    }
  }

  lemma {:induction false} BigEndianHead(value: nat, len: nat)
    requires len > 0 && value < 64 * Pow256(len - 1)
    ensures BigEndian(value, len)[0] < 64
  {
    if len > 1 {
      assert value / 256 < 64 * Pow256(len - 2);
      BigEndianHead(value / 256, len - 1);
    }
  }

  // ------------------------------------------------------------------- varints

  function VarintSize(value: nat): (n: nat) {
    if value < 0x40 then 1
    else if value < 0x4000 then 2
    else if value < 0x4000_0000 then 4
    else 8
  }

  /** The two length bits that announce an `n`-octet integer. */
  function LengthBits(n: nat): (tag: nat)
    ensures tag < 4
  {
    if n <= 1 then 0 else if n == 2 then 1 else if n == 4 then 2 else 3
  }

  /** The octets of an integer whose first octet starts with the length bits `tag`. */
  function AnnouncedLength(first: byte): (n: nat)
    ensures n in {1, 2, 4, 8} && LengthBits(n) == first / 64
  {
    if first < 64 then 1 else if first < 128 then 2 else if first < 192 then 4 else 8
  }

  lemma VarintSizeFits(v: nat)
    requires v <= VARINT_MAX
    ensures v < 64 * Pow256(VarintSize(v) - 1)
  {
    Pow256Values();
  }

  /** The shortest encoding of `value`; larger values are clamped to 62 bits. */
  function EncodeVarint(value: nat): (s: seq<byte>)
    ensures |s| == VarintSize(Min(value, VARINT_MAX))
    ensures s[0] / 64 == LengthBits(|s|)
  {
    var v := Min(value, VARINT_MAX);
    var n := VarintSize(v);
    VarintSizeFits(v);
    BigEndianHead(v, n);
    var octets := BigEndian(v, n);
    [octets[0] + 64 * LengthBits(n)] + octets[1..]
  }

  function ParseVarint(s: seq<byte>): (r: Parse<nat>)
    ensures r.Done? ==> r.value <= VARINT_MAX
    ensures r.Done? ==> 0 < |s| - |r.rest| <= 8 && |r.rest| < |s| && r.rest == s[|s| - |r.rest|..]
  {
    if s == [] then Fail(UnexpectedEnd)
    else
      var n := AnnouncedLength(s[0]);
      if |s| < n then Fail(UnexpectedEnd)
      else
        var octets := [s[0] % 64] + s[1..n];
        ClearedLengthBound(octets);
        Done(FromBigEndian(octets), s[n..])
  }

  lemma ClearedLengthBound(octets: seq<byte>)
    requires |octets| in {1, 2, 4, 8} && octets[0] < 64
    ensures FromBigEndian(octets) <= VARINT_MAX
  {
    HeadBound(octets);
    Pow256Values();
  }

  lemma {:induction false} HeadBound(octets: seq<byte>)
    requires octets != [] && octets[0] < 64
    ensures FromBigEndian(octets) < 64 * Pow256(|octets| - 1)
  {
    var front := octets[..|octets| - 1];
    if front != [] {
      HeadBound(front);
    } else {
      assert FromBigEndian(front) == 0;
    }
  }

  /** Reading undoes writing, whatever follows on the wire. */
  lemma VarintRoundTrip(value: nat, rest: seq<byte>)
    requires value <= VARINT_MAX
    ensures ParseVarint(EncodeVarint(value) + rest) == Done(value, rest)
  {
    var code := EncodeVarint(value);
    var n, s := |code|, code + rest;
    EncodedOctets(value);
    assert s[0] == code[0] && s[1..n] == code[1..] && s[n..] == rest;
  }

  /** Clearing the length bits of an encoding leaves the value's own octets. */
  lemma EncodedOctets(value: nat)
    requires value <= VARINT_MAX
    ensures var code := EncodeVarint(value);
            && AnnouncedLength(code[0]) == |code|
            && FromBigEndian([code[0] % 64] + code[1..]) == value
  {
    var n := VarintSize(value);
    var octets := BigEndian(value, n);
    VarintSizeFits(value);
    BigEndianHead(value, n);
    BigEndianValue(value, n);
    LowAndTag(octets[0], LengthBits(n));
    assert [octets[0]] + octets[1..] == octets;
    assert value < Pow256(n) by { Pow256Step(n); }
    SmallMod(value, Pow256(n));
  }

  /** The `n`-octet form of an integer; all but one of the forms are longer than needed. */
  function Form(value: nat, n: nat): (s: seq<byte>)
    requires n in {1, 2, 4, 8} && value < 64 * Pow256(n - 1)
    ensures |s| == n
  {
    BigEndianHead(value, n);
    var octets := BigEndian(value, n);
    [octets[0] + 64 * LengthBits(n)] + octets[1..]
  }

  /** Every form of an integer is read, and a form that is cut short is not. */
  lemma AnyForm(value: nat, n: nat, rest: seq<byte>, k: nat)
    requires n in {1, 2, 4, 8} && value < 64 * Pow256(n - 1) && k < n
    ensures ParseVarint(Form(value, n) + rest) == Done(value, rest)
    ensures ParseVarint(Form(value, n)[..k]) == Fail(UnexpectedEnd)
  {
    var octets := BigEndian(value, n);
    BigEndianHead(value, n);
    BigEndianValue(value, n);
    LowAndTag(octets[0], LengthBits(n));
    assert [octets[0]] + octets[1..] == octets;
    assert value < Pow256(n) by { Pow256Step(n); }
    SmallMod(value, Pow256(n));
    var s := Form(value, n) + rest;
    hide BigEndian, FromBigEndian, Pow256;
    assert s[0] == octets[0] + 64 * LengthBits(n) && s[1..n] == octets[1..] && s[n..] == rest;
    assert k > 0 ==> Form(value, n)[..k][0] == octets[0] + 64 * LengthBits(n);
  }

  lemma VarintExtends(s: seq<byte>, more: seq<byte>)
    requires ParseVarint(s).Done?
    ensures ParseVarint(s + more) == Done(ParseVarint(s).value, ParseVarint(s).rest + more)
  {
    var n, all := AnnouncedLength(s[0]), s + more;
    assert all[0] == s[0];
    assert all[1..n] == s[1..n];
    assert all[n..] == s[n..] + more;
    hide FromBigEndian;
  }

  lemma BytesExtend(s: seq<byte>, more: seq<byte>, len: nat)
    requires len <= |s|
    ensures ParseBytes(s + more, len) == Done(s[..len], s[len..] + more)
  {
    assert (s + more)[..len] == s[..len] && (s + more)[len..] == s[len..] + more;
  }

  lemma LowAndTag(low: nat, tag: nat)
    requires low < 64 && tag < 4
    ensures (low + 64 * tag) % 64 == low && (low + 64 * tag) / 64 == tag
  {
  }

  lemma Pow256Step(n: nat)
    requires n > 0
    ensures Pow256(n) == 256 * Pow256(n - 1)
  {
  }

  lemma SmallMod(x: nat, m: nat)
    requires x < m
    ensures x % m == x
  {
  }

  function ParseU8(s: seq<byte>): (r: Parse<byte>)
    ensures if s == [] then r == Fail(UnexpectedEnd) else r.Done? && [r.value] + r.rest == s
  {
    if s == [] then Fail(UnexpectedEnd) else Done(s[0], s[1..])
  }

  /** Takes exactly `len` octets, or fails when there are fewer. */
  function ParseBytes(s: seq<byte>, len: nat): (r: Parse<seq<byte>>)
    ensures r.Done? <==> len <= |s|
    ensures r.Done? ==> |r.value| == len && r.value + r.rest == s
  {
    if |s| < len then Fail(UnexpectedEnd) else Done(s[..len], s[len..])
  }

  function ParseU16(s: seq<byte>): (r: Parse<nat>)
    ensures r.Done? ==> |r.rest| < |s|
  {
    var (b, rest) :- ParseBytes(s, 2);
    Done(FromBigEndian(b), rest)
  }

  function ParseU32(s: seq<byte>): (r: Parse<nat>)
    ensures r.Done? ==> |r.rest| < |s|
  {
    var (b, rest) :- ParseBytes(s, 4);
    Done(FromBigEndian(b), rest)
  }

  lemma TwoOctets(s: seq<byte>)
    requires |s| >= 2
    ensures FromBigEndian(s[..2]) == 256 * (s[0] as int) + s[1] && s[1..][1..] == s[2..]
  {
    assert s[..2][..1] == s[..1] && s[..1][..0] == [];
    assert FromBigEndian(s[..1]) == s[0];
  }

  lemma FourOctets(s: seq<byte>)
    requires |s| >= 4
    ensures FromBigEndian(s[..4]) == 0x1_0000 * FromBigEndian(s[..2]) + FromBigEndian(s[2..][..2])
    ensures s[2..][2..] == s[4..]
  {
    assert s[..4][..3] == s[..3] && s[..3][..2] == s[..2];
    assert FromBigEndian(s[..3]) == FromBigEndian(s[..2]) * 256 + s[2];
    TwoOctets(s[2..]);
  }

  // ------------------------------------------------- the mutable cursor and sink

  /** A read cursor over a byte string. */
  class Buf {
    const bytes: seq<byte>
    var pos: nat

    ghost predicate Valid()
      reads this
    {
      pos <= |bytes|
    }

    /** The octets not yet consumed. */
    function Rest(): (s: seq<byte>)
      reads this
      requires Valid()
    {
      bytes[pos..]
    }

    constructor (bytes: seq<byte>)
      ensures Valid() && this.bytes == bytes && pos == 0 && Rest() == bytes
    {
      this.bytes := bytes;
      pos := 0;
    }

    method GetU8() returns (r: Parse<byte>)
      requires Valid()
      modifies this
      ensures Valid() && old(pos) <= pos
      ensures r == old(ParseU8(Rest()))
      ensures r.Done? ==> Rest() == r.rest
      ensures r.Fail? ==> pos == old(pos)
    {
      if pos < |bytes| {
        r := Done(bytes[pos], bytes[pos + 1..]);
        assert bytes[pos..][1..] == bytes[pos + 1..];
        pos := pos + 1;
      } else {
        r := Fail(UnexpectedEnd);
      }
    }

    method GetU16() returns (r: Parse<nat>)
      requires Valid()
      modifies this
      ensures Valid() && old(pos) <= pos
      ensures r == old(ParseU16(Rest()))
      ensures r.Done? ==> Rest() == r.rest
    {
      ghost var s := Rest();
      var hi := GetU8();
      if hi.Fail? {
        return Fail(hi.error);
      }
      var lo := GetU8();
      if lo.Fail? {
        return Fail(lo.error);
      }
      TwoOctets(s);
      r := Done(256 * (hi.value as int) + lo.value, bytes[pos..]);
    }

    method GetU32() returns (r: Parse<nat>)
      requires Valid()
      modifies this
      ensures Valid() && old(pos) <= pos
      ensures r == old(ParseU32(Rest()))
      ensures r.Done? ==> Rest() == r.rest
    {
      ghost var s := Rest();
      var hi := GetU16();
      if hi.Fail? {
        return Fail(hi.error);
      }
      var lo := GetU16();
      if lo.Fail? {
        return Fail(lo.error);
      }
      FourOctets(s);
      r := Done(0x1_0000 * hi.value + lo.value, bytes[pos..]);
    }

    method GetBytes(len: nat) returns (r: Parse<seq<byte>>)
      requires Valid()
      modifies this
      ensures Valid() && old(pos) <= pos
      ensures r == old(ParseBytes(Rest(), len))
      ensures r.Done? ==> Rest() == r.rest
      ensures r.Fail? ==> pos == old(pos)
    {
      var end := pos + len;
      if end <= |bytes| {
        r := Done(bytes[pos..end], bytes[end..]);
        assert bytes[pos..][..len] == bytes[pos..end];
        assert bytes[pos..][len..] == bytes[end..];
        pos := end;
      } else {
        r := Fail(UnexpectedEnd);
      }
    }

    method GetVarint() returns (r: Parse<nat>)
      requires Valid()
      modifies this
      ensures Valid() && old(pos) <= pos
      ensures r == old(ParseVarint(Rest()))
      ensures r.Done? ==> Rest() == r.rest
    {
      ghost var s := Rest();
      var first := GetU8();
      if first.Fail? {
        return Fail(UnexpectedEnd);
      }
      var n := AnnouncedLength(first.value);
      OneOctet(first.value % 64);
      hide FromBigEndian;
      var head: nat := first.value % 64;
      var value := GetTail(n - 1, head, [first.value % 64]);
      if value.Fail? {
        return Fail(UnexpectedEnd);
      }
      assert s[1..][..n - 1] == s[1..n] && s[1..][n - 1..] == s[n..];
      r := value;
    }

    /** The octets after the first, most significant first. */
    method GetTail(extra: nat, start: nat, ghost before: seq<byte>) returns (r: Parse<nat>)
      requires Valid() && start == FromBigEndian(before)
      modifies this
      ensures Valid() && old(pos) <= pos
      ensures r == if old(|Rest()|) < extra then Fail(UnexpectedEnd)
                   else Done(FromBigEndian(before + old(Rest()[..extra])), old(Rest()[extra..]))
      ensures r.Done? ==> Rest() == r.rest
    {
      hide FromBigEndian;
      ghost var s := Rest();
      ghost var octets := before;
      var value: nat := start;
      assert before + s[..0] == before && s[0..] == s;
      var i := 0;
      while i < extra
        invariant 0 <= i <= extra && i <= |s| && Valid() && old(pos) <= pos
        invariant Rest() == s[i..] && octets == before + s[..i] && value == FromBigEndian(octets)
      {
        var next := GetU8();
        if next.Fail? {
          return Fail(UnexpectedEnd);
        }
        NextOctet(octets, next.value);
        assert s[..i + 1] == s[..i] + [next.value];
        octets := octets + [next.value];
        value := value * 256 + next.value;
        i := i + 1;
      }
      r := Done(value, bytes[pos..]);
    }
  }

  lemma OneOctet(b: byte)
    ensures FromBigEndian([b]) == b
  {
    assert [b][..0] == [];
  }

  lemma NextOctet(s: seq<byte>, b: byte)
    ensures FromBigEndian(s + [b]) == FromBigEndian(s) * 256 + b
  {
    assert (s + [b])[..|s|] == s;
  }

  /** A growable output buffer. */
  class Sink {
    var bytes: seq<byte>

    constructor ()
      ensures bytes == []
    {
      bytes := [];
    }

    method Push(b: byte)
      modifies this
      ensures bytes == old(bytes) + [b]
    {
      bytes := bytes + [b];
    }

    method Extend(s: seq<byte>)
      modifies this
      ensures bytes == old(bytes) + s
    {
      bytes := bytes + s;
    }

    /** Appends a variable-length integer; `|` with clear length bits is addition. */
    method PutVarint(value: nat)
      modifies this
      ensures bytes == old(bytes) + EncodeVarint(value)
    {
      var v := Min(value, VARINT_MAX);
      var size := VarintSize(v);
      if size == 1 {
        EncodeVarint1(v);
        Push(v);
      } else if size == 2 {
        EncodeVarint2(v);
        Extend([0x40 + v / 0x100, v % 0x100]);
      } else if size == 4 {
        EncodeVarint4(v);
        Extend([0x80 + v / 0x100_0000, v / 0x1_0000 % 0x100, v / 0x100 % 0x100, v % 0x100]);
      } else {
        EncodeVarint8(v);
        Extend([0xc0 + v / 0x100_0000_0000_0000, v / 0x1_0000_0000_0000 % 0x100,
                v / 0x100_0000_0000 % 0x100, v / 0x1_0000_0000 % 0x100,
                v / 0x100_0000 % 0x100, v / 0x1_0000 % 0x100, v / 0x100 % 0x100, v % 0x100]);
      }
    }
  }

  lemma EncodeVarint1(v: nat)
    requires v < 0x40
    ensures EncodeVarint(v) == [v]
  {
    assert BigEndian(v / 256, 0) == [];
  }

  lemma EncodeVarint2(v: nat)
    requires 0x40 <= v < 0x4000
    ensures EncodeVarint(v) == [0x40 + v / 0x100, v % 0x100]
  {
    Unroll2(v);
  }

  lemma EncodeVarint4(v: nat)
    requires 0x4000 <= v < 0x4000_0000
    ensures EncodeVarint(v)
         == [0x80 + v / 0x100_0000, v / 0x1_0000 % 0x100, v / 0x100 % 0x100, v % 0x100]
  {
    Unroll4(v);
    hide BigEndian, Pow256;
  }

  lemma EncodeVarint8(v: nat)
    requires 0x4000_0000 <= v <= VARINT_MAX
    ensures EncodeVarint(v)
         == [0xc0 + v / 0x100_0000_0000_0000, v / 0x1_0000_0000_0000 % 0x100,
             v / 0x100_0000_0000 % 0x100, v / 0x1_0000_0000 % 0x100,
             v / 0x100_0000 % 0x100, v / 0x1_0000 % 0x100, v / 0x100 % 0x100, v % 0x100]
  {
    Unroll8(v);
    hide BigEndian, Pow256;
  }

  lemma Unroll2(v: nat)
    ensures BigEndian(v, 2) == [v / 0x100 % 0x100, v % 0x100]
  {
    assert BigEndian(v / 0x100, 1) == [v / 0x100 % 0x100];
  }

  lemma Unroll4(v: nat)
    ensures BigEndian(v, 4)
         == [v / 0x100_0000 % 0x100, v / 0x1_0000 % 0x100, v / 0x100 % 0x100, v % 0x100]
  {
    var w := v / 0x100 / 0x100;
    assert w == v / 0x1_0000 && w / 0x100 == v / 0x100_0000;
    Unroll2(w);
    assert BigEndian(v / 0x100, 3) == BigEndian(w, 2) + [v / 0x100 % 0x100];
  }

  lemma Unroll8(v: nat)
    ensures BigEndian(v, 8)
         == [v / 0x100_0000_0000_0000 % 0x100, v / 0x1_0000_0000_0000 % 0x100,
             v / 0x100_0000_0000 % 0x100, v / 0x1_0000_0000 % 0x100,
             v / 0x100_0000 % 0x100, v / 0x1_0000 % 0x100, v / 0x100 % 0x100, v % 0x100]
  {
    var a, b, c := v / 0x100, v / 0x1_0000, v / 0x100_0000;
    var w := v / 0x1_0000_0000;
    DivDiv(v, 0x100, 0x100);
    DivDiv(v, 0x1_0000, 0x100);
    DivDiv(v, 0x100_0000, 0x100);
    DivDiv(v, 0x1_0000_0000, 0x100);
    DivDiv(v, 0x1_0000_0000, 0x1_0000);
    DivDiv(v, 0x1_0000_0000, 0x100_0000);
    Unroll4(w);
    assert BigEndian(c, 5) == BigEndian(w, 4) + [c % 0x100];
    assert BigEndian(b, 6) == BigEndian(c, 5) + [b % 0x100];
    assert BigEndian(a, 7) == BigEndian(b, 6) + [a % 0x100];
  }
}
