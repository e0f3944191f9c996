/** Bytes, fixed-width big-endian integers, length-framed fields and the byte order. */
module Bytes {
  import opened Order

  type byte = b: int | 0 <= b < 256
  type bytes = seq<byte>

  const U32_BOUND: int := 0x1_0000_0000
  const U64_BOUND: int := 0x1_0000_0000_0000_0000
  const I64_MAX: int := 0x7fff_ffff_ffff_ffff
  const I64_MIN: int := -0x8000_0000_0000_0000

  type u32 = v: int | 0 <= v < U32_BOUND
  type i64 = v: int | I64_MIN <= v <= I64_MAX

  /** 16-byte stable identifiers and 32-byte digests (ids.rs, canonical.rs). */
  type StableId = s: bytes | |s| == 16 witness seq(16, _ => 0)
  type SemanticDigest = s: bytes | |s| == 32 witness seq(32, _ => 0)

  /** Registered identifiers: 1 to 128 characters of the canonical ASCII grammar. */
  predicate RegisteredChar(b: byte) {
    'a' as int <= b <= 'z' as int || '0' as int <= b <= '9' as int
    || b in {'.' as int, ':' as int, '_' as int, '-' as int}
  }

  predicate IsRegistered(s: bytes) {
    && 1 <= |s| <= 128
    && 'a' as int <= s[0] <= 'z' as int
    && forall i :: 1 <= i < |s| ==> RegisteredChar(s[i])
  }

  type RegisteredId = s: bytes | IsRegistered(s) witness ['a' as int]

  /** The bytes of an ASCII text. */
  function Ascii(s: string): (r: bytes)
    ensures |r| == |s|
  {
    seq(|s|, i requires 0 <= i < |s| => s[i] as int % 256)
  }

  // ----- big-endian integers

  function Pow256(width: nat): (r: nat)
    ensures r >= 1
  {
    if width == 0 then 1 else 256 * Pow256(width - 1)
  }

  function BigEndian(v: nat, width: nat): (r: bytes)
    ensures |r| == width
  {
    if width == 0 then [] else BigEndian(v / 256, width - 1) + [v % 256]
  }

  lemma {:induction false} BigEndianInjective(a: nat, b: nat, width: nat)
    requires a < Pow256(width) && b < Pow256(width)
    requires BigEndian(a, width) == BigEndian(b, width)
    ensures a == b
  {
    if width > 0 {
      var x, y := BigEndian(a / 256, width - 1), BigEndian(b / 256, width - 1);
      assert x == BigEndian(a, width)[..width - 1] && y == BigEndian(b, width)[..width - 1];
      assert a % 256 == BigEndian(a, width)[width - 1] && b % 256 == BigEndian(b, width)[width - 1];
      BigEndianInjective(a / 256, b / 256, width - 1);
    }
  }

  lemma Pow256Words()
    ensures Pow256(4) == U32_BOUND && Pow256(8) == U64_BOUND
  {
    assert Pow256(4) == 256 * (256 * (256 * Pow256(1))) == U32_BOUND;
    assert Pow256(8) == 256 * (256 * (256 * (256 * Pow256(4)))) == U64_BOUND;
  }

  /** `(n as u32).to_be_bytes()`: the cast keeps the low 32 bits. */
  function U32(n: nat): (r: bytes)
    ensures |r| == 4
  {
    BigEndian(n % U32_BOUND, 4)
  }

  function I64(v: i64): (r: bytes)
    ensures |r| == 8
  {
    BigEndian(if v < 0 then v + U64_BOUND else v, 8)
  }

  lemma U32Injective(a: nat, b: nat)
    requires a < U32_BOUND && b < U32_BOUND && U32(a) == U32(b)
    ensures a == b
  {
    Pow256Words();
    hide Pow256, BigEndian;
    assert a % U32_BOUND == a && b % U32_BOUND == b;
    BigEndianInjective(a, b, 4);
  }

  lemma U64Injective(a: nat, b: nat)
    requires a < U64_BOUND && b < U64_BOUND && BigEndian(a, 8) == BigEndian(b, 8)
    ensures a == b
  {
    Pow256Words();
    hide Pow256, BigEndian;
    BigEndianInjective(a, b, 8);
  }

  lemma I64Injective(a: i64, b: i64)
    requires I64(a) == I64(b)
    ensures a == b
  {
    U64Injective(if a < 0 then a + U64_BOUND else a, if b < 0 then b + U64_BOUND else b);
  }

  // ----- fields that can be read back from the front of a byte string

  lemma CancelFixed(a: bytes, x: bytes, b: bytes, y: bytes)
    requires |a| == |b| && a + x == b + y
    ensures a == b && x == y
  {
    assert a == (a + x)[..|a|] && b == (b + y)[..|a|];
    assert x == (a + x)[|a|..] && y == (b + y)[|a|..];
  }

  lemma CancelU32(a: nat, x: bytes, b: nat, y: bytes)
    requires a < U32_BOUND && b < U32_BOUND && U32(a) + x == U32(b) + y
    ensures a == b && x == y
  {
    CancelFixed(U32(a), x, U32(b), y);
    U32Injective(a, b);
  }

  lemma CancelI64(a: i64, x: bytes, b: i64, y: bytes)
    requires I64(a) + x == I64(b) + y
    ensures a == b && x == y
  {
    CancelFixed(I64(a), x, I64(b), y);
    I64Injective(a, b);
  }

  /** A 32-bit length followed by the text (`encode_text`, `encode_bytes`). */
  function Framed(v: bytes): (r: bytes)
    ensures |r| == 4 + |v|
  {
    U32(|v|) + v
  }

  lemma CancelFramed(a: bytes, x: bytes, b: bytes, y: bytes)
    requires |a| < U32_BOUND && |b| < U32_BOUND && Framed(a) + x == Framed(b) + y
    ensures a == b && x == y
  {
    assert Framed(a) + x == U32(|a|) + (a + x) && Framed(b) + y == U32(|b|) + (b + y);
    CancelU32(|a|, a + x, |b|, b + y);
    CancelFixed(a, x, b, y);
  }

  // ----- byte order

  predicate LexLess(a: bytes, b: bytes) {
    if b == [] then false
    else if a == [] then true
    else a[0] < b[0] || (a[0] == b[0] && LexLess(a[1..], b[1..]))
  }

  lemma LexTrichotomy(a: bytes, b: bytes)
    ensures a == b || LexLess(a, b) || LexLess(b, a)
    ensures !(LexLess(a, b) && LexLess(b, a)) && !LexLess(a, a)
  {
    if a != [] && b != [] && a[0] == b[0] {
      LexTrichotomy(a[1..], b[1..]);
      if a[1..] == b[1..] {
        assert a == [a[0]] + a[1..] && b == [b[0]] + b[1..];
      }
    }
    if a != [] { LexTrichotomy(a[1..], a[1..]); }
  }

  lemma LexTransitive(a: bytes, b: bytes, c: bytes)
    requires LexLess(a, b) && LexLess(b, c)
    ensures LexLess(a, c)
  {
  }

  lemma LexStrictTotal()
    ensures StrictTotal(LexLess)
  {
    forall a, b ensures a == b || LexLess(a, b) || LexLess(b, a) { LexTrichotomy(a, b); }
    forall a ensures !LexLess(a, a) { LexTrichotomy(a, a); }
    forall a, b, c | LexLess(a, b) && LexLess(b, c) ensures LexLess(a, c) { LexTransitive(a, b, c); }
  }

  // ----- hashing

  /** SHA-256 is a parameter of the model: every theorem holds for every such function. */
  type Sha256 = bytes -> SemanticDigest

  predicate IsAscii(s: string) {
    forall i :: 0 <= i < |s| ==> s[i] as int < 128
  }

  /** What `domain_hash` feeds the hash: the framed domain and one framed part. */
  function HashInput(domain: string, part: bytes): bytes
  {
    (BigEndian(|domain| % U64_BOUND, 8) + Ascii(domain)) + (BigEndian(|part| % U64_BOUND, 8) + part)
  }

  function DomainHash(sha: Sha256, domain: string, part: bytes): SemanticDigest
  {
    sha(HashInput(domain, part))
  }

  /** Domains and boundaries are part of what is hashed: equal inputs have equal domain and part. */
  lemma HashInputInjective(d: string, x: bytes, e: string, y: bytes)
    requires IsAscii(d) && IsAscii(e)
    requires |d| < U64_BOUND && |e| < U64_BOUND && |x| < U64_BOUND && |y| < U64_BOUND
    requires HashInput(d, x) == HashInput(e, y)
    ensures d == e && x == y
  {
    hide BigEndian, Ascii, IsAscii;
    var restX, restY := BigEndian(|x|, 8) + x, BigEndian(|y|, 8) + y;
    assert HashInput(d, x) == BigEndian(|d|, 8) + (Ascii(d) + restX);
    assert HashInput(e, y) == BigEndian(|e|, 8) + (Ascii(e) + restY);
    CancelFixed(BigEndian(|d|, 8), Ascii(d) + restX, BigEndian(|e|, 8), Ascii(e) + restY);
    U64Injective(|d|, |e|);
    assert |Ascii(d)| == |Ascii(e)|;
    CancelFixed(Ascii(d), restX, Ascii(e), restY);
    CancelFixed(BigEndian(|x|, 8), x, BigEndian(|y|, 8), y);
    AsciiInjective(d, e);
  }

  lemma AsciiInjective(d: string, e: string)
    requires IsAscii(d) && IsAscii(e) && Ascii(d) == Ascii(e)
    ensures d == e
  {
    forall i | 0 <= i < |d| ensures d[i] == e[i] {
      assert Ascii(d)[i] == d[i] as int && Ascii(e)[i] == e[i] as int;
    }
  }
}
