/**
 * Header protection (section 5.4 of RFC 9001): a five-octet mask, computed from a sample
 * of the ciphertext, is XORed onto the low bits of the first octet and onto the packet
 * number. Removing it is the same operation.
 */
module HeaderProtection {
  import opened Common
  import opened Coding

  // ------------------------------------------------------------------ exclusive or

  function Pow2(n: nat): (p: nat)
    ensures p > 0
  {
    if n == 0 then 1 else 2 * Pow2(n - 1)
  }

  /** The exclusive or of the low `n` bits. */
  function XorBits(n: nat, a: nat, b: nat): (x: nat)
    ensures x < Pow2(n)
  {
    if n == 0 then 0 else (a + b) % 2 + 2 * XorBits(n - 1, a / 2, b / 2)
  }

  lemma Split(c: nat, y: nat)
    requires c < 2
    ensures (c + 2 * y) / 2 == y && (c + 2 * y) % 2 == c
  {
  }

  lemma Parity(a: nat, b: nat, y: nat)
    ensures ((a + b) % 2 + 2 * y + b) % 2 == a % 2
  {
  }

  lemma {:induction false} XorTwice(n: nat, a: nat, b: nat)
    requires a < Pow2(n)
    ensures XorBits(n, XorBits(n, a, b), b) == a
  {
    if n > 0 {
      XorTwice(n - 1, a / 2, b / 2);
      var x, y := XorBits(n, a, b), XorBits(n - 1, a / 2, b / 2);
      assert XorBits(n, x, b) == (x + b) % 2 + 2 * XorBits(n - 1, x / 2, b / 2);
      hide XorBits, Pow2;
      Split((a + b) % 2, y);
      Parity(a, b, y);
    }
  }

  /** A mask of `k` bits leaves the bits above alone. */
  lemma {:induction false} XorKeepsHigh(n: nat, a: nat, b: nat, k: nat)
    requires k <= n && a < Pow2(n) && b < Pow2(k)
    ensures XorBits(n, a, b) / Pow2(k) == a / Pow2(k)
    decreases n
  {
    if k == 0 {
      XorZero(n, a);
    } else {
      XorKeepsHigh(n - 1, a / 2, b / 2, k - 1);
      var x, y, m := XorBits(n, a, b), XorBits(n - 1, a / 2, b / 2), Pow2(k - 1);
      assert x == (a + b) % 2 + 2 * y && Pow2(k) == 2 * m;
      hide XorBits, Pow2;
      Split((a + b) % 2, y);
      DivDiv(x, 2, m);
      DivDiv(a, 2, m);
    }
  }

  lemma {:induction false} XorZero(n: nat, a: nat)
    requires a < Pow2(n)
    ensures XorBits(n, a, 0) == a
  {
    if n > 0 {
      XorZero(n - 1, a / 2);
    }
  }

  lemma Pow2Values()
    ensures Pow2(4) == 16 && Pow2(5) == 32 && Pow2(8) == 256
  {
    assert Pow2(2) == 4 && Pow2(4) == 16 && Pow2(6) == 64;
  }

  function Xor(a: byte, b: byte): (x: byte) {
    Pow2Values();
    XorBits(8, a, b)
  }

  lemma XorInvolution(a: byte, b: byte)
    ensures Xor(Xor(a, b), b) == a
  {
    Pow2Values();
    XorTwice(8, a, b);
  }

  /** Bit `i` of a number, counted from the lowest. */
  predicate Bit(x: nat, i: nat) { x / Pow2(i) % 2 == 1 }

  lemma BitAbove(x: nat, i: nat)
    requires i > 0
    ensures Bit(x, i) == Bit(x / 2, i - 1)
  {
    DivDiv(x, 2, Pow2(i - 1));
  }

  /** It is the exclusive or: each bit differs from the first number's where the second has a one. */
  lemma {:induction false} XorBit(n: nat, a: nat, b: nat, i: nat)
    requires i < n
    ensures Bit(XorBits(n, a, b), i) <==> Bit(a, i) != Bit(b, i)
  {
    var x, y := XorBits(n, a, b), XorBits(n - 1, a / 2, b / 2);
    Split((a + b) % 2, y);
    if i == 0 {
      assert Pow2(0) == 1;
      ParityBit(a, b);
    } else {
      XorBit(n - 1, a / 2, b / 2, i - 1);
      hide XorBits;
      BitAbove(x, i);
      BitAbove(a, i);
      BitAbove(b, i);
    }
  }

  lemma ParityBit(a: nat, b: nat)
    ensures (a + b) % 2 == 1 <==> (a % 2 == 1) != (b % 2 == 1)
  {
  }

  // ---------------------------------------------------------------------- the mask

  type Mask = m: seq<byte> | |m| == 5 witness [0, 0, 0, 0, 0]

  predicate IsLong(first: byte) { first >= 0x80 }

  /** How many octets the packet number takes, once the first octet is in the clear. */
  function PnLen(first: byte): (n: nat)
    ensures 1 <= n <= 4
  {
    first % 4 + 1
  }

  /** Long headers have four protected bits, short headers five. */
  function MaskFirst(first: byte, m: byte): (r: byte) {
    Xor(first, if IsLong(first) then m % 16 else m % 32)
  }

  /** Masking with `k` bits keeps the octet's high part, and is its own inverse. */
  lemma XorLow(first: byte, m: byte, k: nat)
    requires k <= 8 && m < Pow2(k)
    ensures Xor(first, m) / Pow2(k) == first / Pow2(k) && Xor(Xor(first, m), m) == first
  {
    Pow2Values();
    XorKeepsHigh(8, first, m, k);
    XorInvolution(first, m);
  }

  /** The form bit and the bits above the protected ones survive; masking twice restores. */
  lemma MaskFirstLaws(first: byte, m: byte)
    ensures IsLong(MaskFirst(first, m)) == IsLong(first)
    ensures MaskFirst(first, m) / 32 == first / 32
    ensures IsLong(first) ==> MaskFirst(first, m) / 16 == first / 16
    ensures MaskFirst(MaskFirst(first, m), m) == first
  {
    Pow2Values();
    hide Xor, Pow2;
    if IsLong(first) {
      XorLow(first, m % 16, 4);
    } else {
      XorLow(first, m % 32, 5);
    }
  }

  /** The packet `s` with the mask on its first octet and on `n` octets from `pnAt`. */
  function Masked(s: seq<byte>, pnAt: nat, n: nat, mask: Mask): (r: seq<byte>)
    requires 0 < pnAt && n <= 4 && pnAt + n <= |s|
    ensures |r| == |s|
    ensures r[0] == MaskFirst(s[0], mask[0])
    ensures forall i :: pnAt <= i < pnAt + n ==> r[i] == Xor(s[i], mask[1 + i - pnAt])
    ensures forall i :: 0 < i < pnAt || pnAt + n <= i < |s| ==> r[i] == s[i]
  {
    seq(|s|, i requires 0 <= i < |s| =>
      if i == 0 then MaskFirst(s[0], mask[0])
      else if pnAt <= i < pnAt + n then Xor(s[i], mask[1 + i - pnAt])
      else s[i])
  }

  lemma {:induction false} LowBits(m: nat, k: nat, i: nat)
    ensures Bit(m % Pow2(k), i) <==> i < k && Bit(m, i)
    decreases k
  {
    if k == 0 {
      assert m % Pow2(0) == 0;
      NoBits(i);
    } else {
      var p, q := Pow2(k - 1), m / 2 % Pow2(k - 1);
      ModTwice(m, p);
      assert Pow2(k) == 2 * p;
      Split(m % 2, q);
      var r := m % Pow2(k);
      if i == 0 {
        assert Pow2(0) == 1 && r % 2 == m % 2;
      } else {
        LowBits(m / 2, k - 1, i - 1);
        BitAbove(r, i);
        BitAbove(m, i);
      }
    }
  }

  lemma NoBits(i: nat)
    ensures !Bit(0, i)
  {
    assert 0 / Pow2(i) == 0;
  }

  lemma ModTwice(m: nat, p: nat)
    requires p > 0
    ensures m % (2 * p) == m % 2 + 2 * (m / 2 % p)
  {
    var a, b := m / 2 / p, m / 2 % p;
    assert m / 2 == a * p + b;
    assert m == a * (2 * p) + (2 * b + m % 2);
    ModUnique(m, 2 * p, a, 2 * b + m % 2);
  }

  lemma MaskBit(m: byte, i: nat)
    ensures Bit(m % 16, i) <==> i < 4 && Bit(m, i)
    ensures Bit(m % 32, i) <==> i < 5 && Bit(m, i)
  {
    Pow2Values();
    LowBits(m, 4, i);
    LowBits(m, 5, i);
    hide Bit, Pow2;
  }

  /**
   * Protection flips, in the first octet, the low four bits of a long header or five of a
   * short one where the mask has a one, and every bit of the packet number where the next
   * octets of the mask have one; nothing else.
   */
  lemma MaskedExact(s: seq<byte>, pnAt: nat, n: nat, mask: Mask, i: nat, k: nat)
    requires 0 < pnAt && n <= 4 && pnAt + n <= |s| && i < 8 && k < |s|
    ensures var r := Masked(s, pnAt, n, mask);
            Bit(r[k], i) <==>
            (Bit(s[k], i) != if k == 0 then i < (if s[0] >= 0x80 then 4 else 5) && Bit(mask[0], i)
                             else pnAt <= k < pnAt + n && Bit(mask[1 + k - pnAt], i))
  {
    hide Bit, Pow2;
    if k == 0 {
      MaskBit(mask[0], i);
      XorBit(8, s[0], if IsLong(s[0]) then mask[0] % 16 else mask[0] % 32, i);
    } else if pnAt <= k < pnAt + n {
      XorBit(8, s[k], mask[1 + k - pnAt], i);
    }
    hide XorBits;
  }

  lemma MaskedTwice(s: seq<byte>, pnAt: nat, n: nat, mask: Mask)
    requires 0 < pnAt && n <= 4 && pnAt + n <= |s|
    ensures Masked(Masked(s, pnAt, n, mask), pnAt, n, mask) == s
  {
    MaskFirstLaws(s[0], mask[0]);
    var r := Masked(s, pnAt, n, mask);
    forall i | pnAt <= i < pnAt + n
      ensures Masked(r, pnAt, n, mask)[i] == s[i]
    {
      XorInvolution(s[i], mask[1 + i - pnAt]);
    }
  }

  /**
   * Applies (`masked` false) or removes (`masked` true) the mask in place. The packet
   * number field handed in is up to four octets long; only its true length, read from the
   * clear first octet, is changed.
   */
  method XorInPlace(a: array<byte>, at: nat, pnAt: nat, field: nat, mask: Mask, masked: bool)
    requires at < pnAt && pnAt + field <= a.Length && field <= 4
    requires PnLen(if masked then MaskFirst(a[at], mask[0]) else a[at]) <= field
    modifies a
    ensures var first := if masked then MaskFirst(old(a[at]), mask[0]) else old(a[at]);
            a[at..] == Masked(old(a[at..]), pnAt - at, PnLen(first), mask)
    ensures a[..at] == old(a[..at])
  {
    var first := if masked then MaskFirst(a[at], mask[0]) else a[at];
    var n := PnLen(first);
    a[at] := MaskFirst(a[at], mask[0]);
    for i := 0 to n
      invariant a[at] == MaskFirst(old(a[at]), mask[0])
      invariant forall j :: pnAt <= j < pnAt + i ==> a[j] == Xor(old(a[j]), mask[1 + j - pnAt])
      invariant forall j :: (0 <= j < a.Length && j != at && j < pnAt) || pnAt + i <= j < a.Length ==> a[j] == old(a[j])
    {
      a[pnAt + i] := Xor(a[pnAt + i], mask[1 + i]);
    }
    ghost var was := old(a[at..]);
    ghost var r := Masked(was, pnAt - at, n, mask);
    forall k | 0 <= k < |r|
      ensures a[at + k] == r[k]
    {
      assert was[k] == old(a[at + k]);
    }
    assert a[at..] == r;
  }
}
