/**
 Payload fingerprints (DeliveryJournal.cpp, Fingerprint).

 A 64-bit FNV-1a hash printed as 16 lower-case hexadecimal digits. The hash word is an
 integer below 2^64, so the wrap-around of the unsigned multiplication is written out.
 */
module Fingerprints {
  import Numbers

  type byte = b: int | 0 <= b < 256
  type bytes = seq<byte>

  const TWO64: int := 0x1_0000_0000_0000_0000
  type word = w: int | 0 <= w < TWO64

  const OFFSET_BASIS: word := 14695981039346656037
  const PRIME: int := 1099511628211
  // The multiplicative inverse of PRIME modulo 2^64.
  const PRIME_INVERSE: int := 0xce965057aff6957b

  // Bit k of the exclusive or of two bytes, summed from bit 0 up.
  function XorBits(a: nat, b: nat, bits: nat): (r: nat)
  {
    if bits == 0 then 0
    else (if a % 2 == b % 2 then 0 else 1) + 2 * XorBits(a / 2, b / 2, bits - 1)
  }

  function XorByte(a: byte, b: byte): byte {
    XorFits(a, b, 8);
    XorBits(a, b, 8)
  }

  // hash ^ byte touches the low eight bits only.
  function Mix(hash: word, b: byte): (r: word)
    ensures r / 256 == hash / 256
  {
    (hash - hash % 256) + XorByte(hash % 256, b)
  }

  function Step(hash: word, b: byte): (r: word) {
    Mix(hash, b) * PRIME % TWO64
  }

  function HashFrom(hash: word, payload: bytes): (r: word)
    decreases |payload|
  {
    if payload == [] then hash else HashFrom(Step(hash, payload[0]), payload[1..])
  }

  function HexDigit(d: nat): (c: char)
    requires d < 16
  {
    "0123456789abcdef"[d]
  }

  // The low `digits` hexadecimal digits of w, most significant first.
  function Hex(w: nat, digits: nat): (s: string)
    ensures |s| == digits
  {
    if digits == 0 then "" else Hex(w / 16, digits - 1) + [HexDigit(w % 16)]
  }

  function FingerprintOf(payload: bytes): (s: string)
    ensures |s| == 16
  {
    Hex(HashFrom(OFFSET_BASIS, payload), 16)
  }

  method Fingerprint(payload: bytes) returns (text: string)
    ensures text == FingerprintOf(payload)
  {
    var hash: word := OFFSET_BASIS;
    for i := 0 to |payload|
      invariant HashFrom(hash, payload[i..]) == HashFrom(OFFSET_BASIS, payload)
    {
      assert payload[i..][0] == payload[i] && payload[i..][1..] == payload[i + 1..];
      hash := Mix(hash, payload[i]);
      hash := hash * PRIME % TWO64;
    }
    assert payload[|payload|..] == [];
    text := Hex(hash, 16);
  }

  // ---------------------------------------------------------------- injectivity of one step

  function Pow2(n: nat): (p: nat)
    ensures p > 0
  {
    if n == 0 then 1 else 2 * Pow2(n - 1)
  }

  lemma {:induction false} XorFits(a: nat, b: nat, bits: nat)
    ensures XorBits(a, b, bits) < Pow2(bits)
    ensures bits == 8 ==> Pow2(bits) == 256
  {
    if bits > 0 {
      XorFits(a / 2, b / 2, bits - 1);
    }
    assert Pow2(8) == 2 * Pow2(7) && Pow2(7) == 2 * Pow2(6) && Pow2(6) == 2 * Pow2(5) && Pow2(5) == 2 * Pow2(4);
    assert Pow2(4) == 2 * Pow2(3) && Pow2(3) == 2 * Pow2(2) && Pow2(2) == 4;
  }

  function Bit(n: nat, k: nat): (b: nat)
    ensures b < 2
  {
    if k == 0 then n % 2 else Bit(n / 2, k - 1)
  }

  /** XorBits is the bitwise exclusive or: each bit is set iff the operands' bits differ. */
  lemma {:induction false} XorBitsAt(a: nat, b: nat, bits: nat, k: nat)
    requires k < bits
    ensures Bit(XorBits(a, b, bits), k) == (if Bit(a, k) == Bit(b, k) then 0 else 1)
  {
    if k > 0 {
      XorBitsAt(a / 2, b / 2, bits - 1, k - 1);
    }
  }

  lemma {:induction false} XorCancels(a: nat, b: nat, c: nat, d: nat, bits: nat)
    requires a < Pow2(bits) && b < Pow2(bits) && c < Pow2(bits) && d < Pow2(bits)
    requires XorBits(a, b, bits) == XorBits(c, d, bits)
    ensures a == c <==> b == d
  {
    if bits > 0 {
      XorCancels(a / 2, b / 2, c / 2, d / 2, bits - 1);
    }
  }

  lemma MixInjective(h1: word, b1: byte, h2: word, b2: byte)
    requires Mix(h1, b1) == Mix(h2, b2)
    ensures h1 == h2 <==> b1 == b2
  {
    XorFits(0, 0, 8);
    XorCancels(h1 % 256, b1, h2 % 256, b2, 8);
  }

  lemma MultiplyInjective(x: word, y: word)
    requires x * PRIME % TWO64 == y * PRIME % TWO64
    ensures x == y
  {
    MultiplyInverse(x);
    MultiplyInverse(y);
  }

  lemma MultiplyInverse(x: word)
    ensures (x * PRIME % TWO64) * PRIME_INVERSE % TWO64 == x
  {
    assert PRIME * PRIME_INVERSE % TWO64 == 1;
    var k := PRIME * PRIME_INVERSE / TWO64;
    var q := x * PRIME / TWO64;
    var r := x * PRIME % TWO64;
    assert r == x * PRIME - q * TWO64;
    var t := x * k - q * PRIME_INVERSE;
    assert r * PRIME_INVERSE == x + t * TWO64;
    Remainder(x, t);
  }

  lemma Remainder(x: word, t: int)
    ensures (x + t * TWO64) % TWO64 == x
  {
  }

  /** One step is injective in the hash for a fixed byte, and in the byte for a fixed hash. */
  lemma StepInjective(h1: word, b1: byte, h2: word, b2: byte)
    requires Step(h1, b1) == Step(h2, b2)
    ensures h1 == h2 <==> b1 == b2
  {
    MultiplyInjective(Mix(h1, b1), Mix(h2, b2));
    MixInjective(h1, b1, h2, b2);
  }

  // ---------------------------------------------------------------- lifting to payloads

  lemma {:induction false} HashConcat(h: word, p: bytes, s: bytes)
    ensures HashFrom(h, p + s) == HashFrom(HashFrom(h, p), s)
    decreases |p|
  {
    if p == [] {
      assert p + s == s;
    } else {
      assert (p + s)[0] == p[0] && (p + s)[1..] == p[1..] + s;
      HashConcat(Step(h, p[0]), p[1..], s);
    }
  }

  lemma {:induction false} HashInjectiveInSeed(h1: word, h2: word, s: bytes)
    requires HashFrom(h1, s) == HashFrom(h2, s)
    ensures h1 == h2
    decreases |s|
  {
    if s != [] {
      HashInjectiveInSeed(Step(h1, s[0]), Step(h2, s[0]), s[1..]);
      StepInjective(h1, s[0], h2, s[0]);
    }
  }

  lemma {:induction false} HexInjective(v: nat, w: nat, digits: nat)
    requires v < Pow2(4 * digits) && w < Pow2(4 * digits)
    requires Hex(v, digits) == Hex(w, digits)
    ensures v == w
  {
    if digits > 0 {
      var a, b := Hex(v / 16, digits - 1), Hex(w / 16, digits - 1);
      assert Hex(v, digits) == a + [HexDigit(v % 16)] && Hex(w, digits) == b + [HexDigit(w % 16)];
      assert a == Hex(v, digits)[..digits - 1] && b == Hex(w, digits)[..digits - 1];
      assert Hex(v, digits)[digits - 1] == HexDigit(v % 16) && Hex(w, digits)[digits - 1] == HexDigit(w % 16);
      assert v % 16 == w % 16;
      PowerOfSixteen(digits);
      HexInjective(v / 16, w / 16, digits - 1);
    }
  }

  lemma PowerOfSixteen(digits: nat)
    requires digits > 0
    ensures Pow2(4 * digits) == 16 * Pow2(4 * (digits - 1))
  {
    FourDoublings(4 * (digits - 1));
  }

  lemma FourDoublings(n: nat)
    ensures Pow2(n + 4) == 16 * Pow2(n)
  {
    assert Pow2(n + 4) == 2 * Pow2(n + 3) && Pow2(n + 3) == 2 * Pow2(n + 2);
    assert Pow2(n + 2) == 2 * Pow2(n + 1) && Pow2(n + 1) == 2 * Pow2(n);
  }

  lemma {:induction false} Pow2Adds(m: nat, n: nat)
    ensures Pow2(m + n) == Pow2(m) * Pow2(n)
  {
    if m > 0 {
      Pow2Adds(m - 1, n);
    }
  }

  lemma WordWidth()
    ensures Pow2(64) == TWO64
  {
    XorFits(0, 0, 8);
    Squares(8, 256);
    Squares(16, 0x1_0000);
    Squares(32, 0x1_0000_0000);
  }

  lemma Squares(n: nat, p: nat)
    requires Pow2(n) == p
    ensures Pow2(2 * n) == p * p
  {
    Pow2Adds(n, n);
  }

  /** Two payloads that agree except in one byte never share a fingerprint. */
  lemma OneByteChangesFingerprint(pre: bytes, x: byte, y: byte, post: bytes)
    requires x != y
    ensures FingerprintOf(pre + [x] + post) != FingerprintOf(pre + [y] + post)
  {
    if FingerprintOf(pre + [x] + post) == FingerprintOf(pre + [y] + post) {
      WordWidth();
      HexInjective(HashFrom(OFFSET_BASIS, pre + [x] + post), HashFrom(OFFSET_BASIS, pre + [y] + post), 16);
      var h := HashFrom(OFFSET_BASIS, pre);
      HashConcat(OFFSET_BASIS, pre + [x], post);
      HashConcat(OFFSET_BASIS, pre + [y], post);
      HashConcat(OFFSET_BASIS, pre, [x]);
      HashConcat(OFFSET_BASIS, pre, [y]);
      HashInjectiveInSeed(HashFrom(h, [x]), HashFrom(h, [y]), post);
      assert HashFrom(h, [x]) == Step(h, x) && HashFrom(h, [y]) == Step(h, y);
      StepInjective(h, x, h, y);
    }
  }

  // ---------------------------------------------------------------- the published values

  lemma XorNext(a: nat, b: nat, bits: nat, rest: nat)
    requires XorBits(a / 2, b / 2, bits) == rest
    ensures XorBits(a, b, bits + 1) == (if a % 2 == b % 2 then 0 else 1) + 2 * rest
  {
  }

  // The low byte of the offset basis, mixed with "a".
  lemma LowByteMixed()
    ensures XorBits(0x25, 0x61, 8) == 0x44
  {
    XorNext(0, 0, 0, 0);
    XorNext(0, 1, 1, 0);
    XorNext(1, 3, 2, 1);
    XorNext(2, 6, 3, 2);
    XorNext(4, 12, 4, 4);
    XorNext(9, 24, 5, 8);
    XorNext(0x12, 0x30, 6, 0x11);
    XorNext(0x25, 0x61, 7, 0x22);
  }

  lemma StepIs(hash: word, b: byte, low: nat, mixed: nat, next: word)
    requires hash % 256 == low && XorBits(low, b, 8) == mixed && (hash - low + mixed) * PRIME % TWO64 == next
    ensures Step(hash, b) == next
  {
  }

  /**
   The hashes the authors of FNV publish for the empty text and for "a": they fix the offset
   basis, the prime, and that a byte is mixed in before the multiplication.
   */
  lemma PublishedHashes(empty: bytes, a: bytes)
    requires empty == [] && a == [0x61]
    ensures HashFrom(OFFSET_BASIS, empty) == 0xcbf29ce484222325
    ensures HashFrom(OFFSET_BASIS, a) == 0xaf63dc4c8601ec8c
  {
    LowByteMixed();
    StepIs(OFFSET_BASIS, 0x61, 0x25, 0x44, 0xaf63dc4c8601ec8c);
    HashOfOne(OFFSET_BASIS, a, 0x61);
  }

  lemma HashOfOne(h: word, p: bytes, b: byte)
    requires p == [b]
    ensures HashFrom(h, p) == Step(h, b)
  {
    assert p[1..] == [];
  }

  function Sixteen(n: nat): (p: nat)
    ensures p > 0
  {
    if n == 0 then 1 else 16 * Sixteen(n - 1)
  }

  lemma DivideTwice(w: nat, p: nat)
    requires p > 0
    ensures w / 16 / p == w / (16 * p)
  {
    var q := w / 16 / p;
    var r := w / 16 % p;
    assert w == 16 * (q * p + r) + w % 16;
    assert 16 * (q * p + r) == q * (16 * p) + 16 * r;
    QuotientOf(w, 16 * p, q, 16 * r + w % 16);
  }

  lemma QuotientOf(v: int, d: int, q: int, r: int)
    requires d > 0 && v == q * d + r && 0 <= r < d
    ensures v / d == q
  {
    Numbers.QuotientIs(v, d, q, r);
  }

  /** Digit k, from the most significant one down, is that digit of the number in base 16. */
  lemma {:induction false} HexAt(w: nat, digits: nat, k: nat)
    requires k < digits
    ensures Hex(w, digits)[k] == "0123456789abcdef"[w / Sixteen(digits - 1 - k) % 16]
    decreases digits
  {
    if k < digits - 1 {
      var p := Sixteen(digits - 2 - k);
      HexAt(w / 16, digits - 1, k);
      DivideTwice(w, p);
      assert Sixteen(digits - 1 - k) == 16 * p;
    } else {
      assert Sixteen(0) == 1;
    }
  }
}
