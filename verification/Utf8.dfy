/** UTF-8 as RFC 3629 section 4 defines it: well-formed characters, and text made of them. */
module Utf8 {
  import opened Bytes

  predicate Continuation(b: byte) { 0x80 <= b <= 0xBF }

  /** Length of the well-formed character that starts `s`, or 0 when none does. */
  function CharLength(s: bytes): (n: nat)
    ensures n <= |s| && n <= 4
  {
    if |s| >= 1 && s[0] <= 0x7F then 1
    else if |s| >= 2 && 0xC2 <= s[0] <= 0xDF && Continuation(s[1]) then 2
    else if |s| >= 3 && Continuation(s[2])
            && (|| (s[0] == 0xE0 && 0xA0 <= s[1] <= 0xBF)
                || (0xE1 <= s[0] <= 0xEC && Continuation(s[1]))
                || (s[0] == 0xED && 0x80 <= s[1] <= 0x9F)
                || (0xEE <= s[0] <= 0xEF && Continuation(s[1]))) then 3
    else if |s| >= 4 && Continuation(s[2]) && Continuation(s[3])
            && (|| (s[0] == 0xF0 && 0x90 <= s[1] <= 0xBF)
                || (0xF1 <= s[0] <= 0xF3 && Continuation(s[1]))
                || (s[0] == 0xF4 && 0x80 <= s[1] <= 0x8F)) then 4
    else 0
  }

  /** `std::str::from_utf8(s).is_ok()` */
  predicate ValidUtf8(s: bytes)
    decreases |s|
  {
    s == [] || (CharLength(s) > 0 && ValidUtf8(s[CharLength(s)..]))
  }

  predicate Scalar(cp: int) {
    0 <= cp <= 0x10FFFF && !(0xD800 <= cp <= 0xDFFF)
  }

  function TwoBytes(cp: int): (r: bytes)
    requires 0x80 <= cp < 0x800
    ensures |r| == 2 && CharLength(r) == 2
  {
    [0xC0 + cp / 64, 0x80 + cp % 64]
  }

  function ThreeBytes(cp: int): (r: bytes)
    requires Scalar(cp) && 0x800 <= cp < 0x10000
    ensures |r| == 3 && CharLength(r) == 3
  {
    [0xE0 + cp / 4096, 0x80 + cp / 64 % 64, 0x80 + cp % 64]
  }

  function FourBytes(cp: int): (r: bytes)
    requires Scalar(cp) && 0x10000 <= cp
    ensures |r| == 4 && CharLength(r) == 4
  {
    [0xF0 + cp / 262144, 0x80 + cp / 4096 % 64, 0x80 + cp / 64 % 64, 0x80 + cp % 64]
  }

  /** `char::encode_utf8` */
  function EncodeUtf8(cp: int): (r: bytes)
    requires Scalar(cp)
    ensures 1 <= |r| <= 4 && CharLength(r) == |r|
    ensures cp <= 0xFFFF ==> |r| <= 3
  {
    if cp < 0x80 then [cp]
    else if cp < 0x800 then TwoBytes(cp)
    else if cp < 0x10000 then ThreeBytes(cp)
    else FourBytes(cp)
  }

  lemma CharLengthPrefix(a: bytes, b: bytes)
    requires CharLength(a) > 0
    ensures CharLength(a + b) == CharLength(a)
  {
    var s := a + b;
    assert forall i :: 0 <= i < |a| ==> s[i] == a[i];
  }

  lemma ValidStep(s: bytes, n: nat)
    requires n == CharLength(s) > 0
    ensures ValidUtf8(s) == ValidUtf8(s[n..])
  {
  }

  lemma {:induction false} ValidConcat(a: bytes, b: bytes)
    requires ValidUtf8(a) && ValidUtf8(b)
    ensures ValidUtf8(a + b)
    decreases |a|
  {
    hide CharLength;
    if a == [] {
      assert a + b == b;
    } else {
      var n := CharLength(a);
      ValidStep(a, n);
      ValidConcat(a[n..], b);
      CharLengthPrefix(a, b);
      assert (a + b)[n..] == a[n..] + b;
      ValidStep(a + b, n);
    }
  }

  lemma OneChar(s: bytes)
    requires s != [] && CharLength(s) == |s|
    ensures ValidUtf8(s)
  {
    assert s[|s|..] == [];
  }

  lemma {:induction false} AsciiValid(s: bytes)
    requires forall i :: 0 <= i < |s| ==> s[i] <= 0x7F
    ensures ValidUtf8(s)
  {
    if s != [] { AsciiValid(s[1..]); }
  }
}
