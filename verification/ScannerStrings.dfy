/** Strings and numbers: the scanner reads exactly the texts the grammar derives. */
module ScannerStrings {
  import opened Bytes
  import opened Utf8
  import opened JsonGrammar
  import opened Wrappers
  import opened ScannerSpec

  lemma AtConcat(raw: bytes, pos: nat, a: bytes, b: bytes)
    ensures At(raw, pos, a + b) <==> At(raw, pos, a) && At(raw, pos + |a|, b)
  {
    if At(raw, pos, a + b) {
      CancelFixed(raw[pos..pos + |a|], raw[pos + |a|..pos + |a| + |b|], a, b);
    }
    if At(raw, pos, a) && At(raw, pos + |a|, b) {
      assert raw[pos..pos + |a + b|] == raw[pos..pos + |a|] + raw[pos + |a|..pos + |a| + |b|];
    }
  }

  lemma AtIndex(raw: bytes, pos: nat, text: bytes)
    requires At(raw, pos, text)
    ensures forall i :: 0 <= i < |text| ==> raw[pos + i] == text[i]
  {
    forall i | 0 <= i < |text| ensures raw[pos + i] == text[i] {
      assert raw[pos..pos + |text|][i] == raw[pos + i];
    }
  }

  lemma AtFirst(raw: bytes, pos: nat, text: bytes)
    requires At(raw, pos, text) && text != []
    ensures pos < |raw| && raw[pos] == text[0]
  {
    assert raw[pos..pos + |text|][0] == raw[pos];
  }

  // ----- characters

  lemma CharTextLength(c: Char)
    requires CharOk(c)
    ensures 1 <= |CharText(c)| && 1 <= |CharDecoded(c)| <= |CharText(c)|
    ensures CharText(c)[0] >= 0x20 && CharText(c)[0] != QUOTE
  {
  }

  lemma SoundEscape(raw: bytes, pos: nat) returns (c: Char)
    requires pos < |raw| && raw[pos] == BACKSLASH && ScanEscape(raw, pos + 1).Ok?
    ensures CharOk(c) && Escaped(c) && At(raw, pos, CharText(c))
    ensures ScanEscape(raw, pos + 1).value == (pos + |CharText(c)|, CharDecoded(c))
  {
    hide ValidUtf8, CharLength, EncodeUtf8, QuadValue;
    if IsShortEscape(raw[pos + 1]) {
      c := Short(raw[pos + 1]);
    } else {
      var first := ScanQuad(raw, pos + 2).value;
      if HighSurrogate(QuadValue(first)) {
        var second := ScanQuad(raw, pos + 8).value;
        c := Pair(first, second);
        assert raw[pos..pos + 12] == [BACKSLASH, LOWER_U] + raw[pos + 2..pos + 6] + [BACKSLASH, LOWER_U] + raw[pos + 8..pos + 12];
      } else {
        c := Unicode(first);
        assert raw[pos..pos + 6] == [BACKSLASH, LOWER_U] + raw[pos + 2..pos + 6];
      }
    }
  }

  lemma CompleteQuad(raw: bytes, pos: nat, q: Quad)
    requires At(raw, pos, q)
    ensures ScanQuad(raw, pos) == Ok(q)
  {
    AtIndex(raw, pos, q);
  }

  lemma CompleteEscape(raw: bytes, pos: nat, c: Char)
    requires CharOk(c) && Escaped(c) && At(raw, pos, CharText(c))
    ensures ScanEscape(raw, pos + 1) == Ok((pos + |CharText(c)|, CharDecoded(c)))
  {
    hide ValidUtf8, CharLength, EncodeUtf8, QuadValue;
    AtIndex(raw, pos, CharText(c));
    match c {
      case Short(e) =>
      case Unicode(q) =>
        AtConcat(raw, pos, [BACKSLASH, LOWER_U], q);
        CompleteQuad(raw, pos + 2, q);
      case Pair(hi, lo) =>
        AtConcat(raw, pos, [BACKSLASH, LOWER_U] + hi + [BACKSLASH, LOWER_U], lo);
        AtConcat(raw, pos, [BACKSLASH, LOWER_U] + hi, [BACKSLASH, LOWER_U]);
        AtConcat(raw, pos, [BACKSLASH, LOWER_U], hi);
        AtIndex(raw, pos + 6, [BACKSLASH, LOWER_U]);
        CompleteQuad(raw, pos + 2, hi);
        CompleteQuad(raw, pos + 8, lo);
    }
  }

  lemma CharLengthTake(s: bytes)
    ensures CharLength(s[..CharLength(s)]) == CharLength(s)
  {
    var t := s[..CharLength(s)];
    assert forall i :: 0 <= i < |t| ==> t[i] == s[i];
  }

  lemma SoundChar(raw: bytes, limits: Limits, s: CharsScan) returns (c: Char)
    requires Boundary(raw, s.pos) && s.pos < |raw| && raw[s.pos] != QUOTE && ScanChar(raw, limits, s).Ok?
    ensures CharOk(c) && At(raw, s.pos, CharText(c))
    ensures ScanChar(raw, limits, s).value ==
            CharsScan(s.pos + |CharText(c)|, s.escapes + (if Escaped(c) then 1 else 0), s.decoded + CharDecoded(c))
    ensures s.escapes <= limits.maxEscapeCount ==> ScanChar(raw, limits, s).value.escapes <= limits.maxEscapeCount
  {
    hide ValidUtf8, CharLength, ScanEscape, EncodeUtf8;
    if raw[s.pos] == BACKSLASH {
      c := SoundEscape(raw, s.pos);
    } else if raw[s.pos] <= 0x7f {
      c := Plain(raw[s.pos]);
    } else {
      c := SoundMulti(raw, s.pos);
    }
  }

  lemma SoundMulti(raw: bytes, pos: nat) returns (c: Char)
    requires Boundary(raw, pos) && pos < |raw| && raw[pos] > 0x7f
    ensures pos + CharLength(raw[pos..]) <= |raw| && c == Multi(raw[pos..pos + CharLength(raw[pos..])]) && CharOk(c)
  {
    StepChar(raw, pos);
    var n := CharLength(raw[pos..]);
    CharLengthTake(raw[pos..]);
    hide CharLength;
    assert raw[pos..][..n] == raw[pos..pos + n];
    c := Multi(raw[pos..pos + n]);
  }

  lemma EscapeHead(raw: bytes, pos: nat, c: Char)
    requires CharOk(c) && Escaped(c) && At(raw, pos, CharText(c))
    ensures |CharText(c)| > 0 && raw[pos] == BACKSLASH
  {
    AtIndex(raw, pos, CharText(c));
  }

  lemma CompleteMulti(raw: bytes, pos: nat, text: bytes)
    requires CharOk(Multi(text)) && At(raw, pos, text)
    ensures raw[pos] >= 0x80 && CharLength(raw[pos..]) == |text| && raw[pos..pos + |text|] == text
  {
    hide CharLength;
    AtIndex(raw, pos, text);
    assert raw[pos..] == text + raw[pos + |text|..];
    CharLengthPrefix(text, raw[pos + |text|..]);
  }

  lemma CompletePlain(raw: bytes, limits: Limits, s: CharsScan, c: Char)
    requires Boundary(raw, s.pos) && CharOk(c) && !Escaped(c) && At(raw, s.pos, CharText(c)) && s.pos < |raw|
    ensures raw[s.pos] != QUOTE
    ensures ScanChar(raw, limits, s) == Ok(CharsScan(s.pos + |CharText(c)|, s.escapes, s.decoded + CharDecoded(c)))
  {
    hide ValidUtf8, CharLength, ScanEscape;
    if c.Multi? {
      CompleteMulti(raw, s.pos, c.text);
    } else {
      AtIndex(raw, s.pos, [c.b]);
    }
  }

  lemma CompleteChar(raw: bytes, limits: Limits, s: CharsScan, c: Char)
    requires Boundary(raw, s.pos) && CharOk(c) && At(raw, s.pos, CharText(c)) && s.pos < |raw|
    requires s.escapes + (if Escaped(c) then 1 else 0) <= limits.maxEscapeCount
    ensures raw[s.pos] != QUOTE
    ensures ScanChar(raw, limits, s) ==
            Ok(CharsScan(s.pos + |CharText(c)|, s.escapes + (if Escaped(c) then 1 else 0), s.decoded + CharDecoded(c)))
  {
    hide ValidUtf8, CharLength, CharText, CharDecoded, CharOk, At, ScanEscape;
    if Escaped(c) {
      EscapeHead(raw, s.pos, c);
      CompleteEscape(raw, s.pos, c);
    } else {
      CompletePlain(raw, limits, s, c);
    }
  }

  lemma SoundChars(raw: bytes, limits: Limits, start: nat, s: CharsScan, maximum: nat) returns (cs: Chars)
    requires start <= s.pos && Boundary(raw, s.pos) && ScanChars(raw, limits, start, s, maximum).Ok?
    ensures CharsOk(cs) && At(raw, s.pos, CharsText(cs) + [QUOTE])
    ensures ScanChars(raw, limits, start, s, maximum).value ==
            CharsScan(s.pos + |CharsText(cs)| + 1, s.escapes + Escapes(cs), s.decoded + Decoded(cs))
    ensures s.escapes <= limits.maxEscapeCount ==> s.escapes + Escapes(cs) <= limits.maxEscapeCount
    decreases |raw| - s.pos
  {
    hide ValidUtf8, CharLength, ScanChar, CharDecoded, CharText, CharOk;
    if raw[s.pos] == QUOTE {
      cs := [];
      assert CharsText(cs) + [QUOTE] == [QUOTE] && s.decoded + Decoded(cs) == s.decoded;
    } else {
      var c := SoundChar(raw, limits, s);
      var next := ScanChar(raw, limits, s).value;
      var rest := SoundChars(raw, limits, start, next, maximum);
      cs := [c] + rest;
      assert cs[1..] == rest;
      AtConcat(raw, s.pos, CharText(c), CharsText(rest) + [QUOTE]);
      assert CharsText(cs) + [QUOTE] == CharText(c) + (CharsText(rest) + [QUOTE]);
      assert s.decoded + Decoded(cs) == next.decoded + Decoded(rest);
    }
  }

  lemma ScanCharsEnd(raw: bytes, limits: Limits, start: nat, s: CharsScan, maximum: nat)
    requires start <= s.pos && Boundary(raw, s.pos) && Here(raw, s.pos, QUOTE)
    ensures ScanChars(raw, limits, start, s, maximum) == Ok(s.(pos := s.pos + 1))
  {
    hide ValidUtf8, CharLength, ScanChar;
  }

  lemma ScanCharsStep(raw: bytes, limits: Limits, start: nat, s: CharsScan, maximum: nat)
    requires start <= s.pos < |raw| && Boundary(raw, s.pos) && raw[s.pos] != QUOTE && s.pos - start <= maximum
    requires ScanChar(raw, limits, s).Ok? && |ScanChar(raw, limits, s).value.decoded| <= maximum
    ensures ScanChars(raw, limits, start, s, maximum)
         == ScanChars(raw, limits, start, ScanChar(raw, limits, s).value, maximum)
  {
    hide ValidUtf8, CharLength, ScanChar;
  }

  lemma {:induction false} CompleteChars(raw: bytes, limits: Limits, start: nat, s: CharsScan, maximum: nat, cs: Chars)
    requires start <= s.pos && Boundary(raw, s.pos) && CharsOk(cs) && At(raw, s.pos, CharsText(cs) + [QUOTE])
    requires |s.decoded| <= s.pos - start && s.pos - start + |CharsText(cs)| <= maximum
    requires s.escapes + Escapes(cs) <= limits.maxEscapeCount
    ensures ScanChars(raw, limits, start, s, maximum) ==
            Ok(CharsScan(s.pos + |CharsText(cs)| + 1, s.escapes + Escapes(cs), s.decoded + Decoded(cs)))
    decreases |cs|
  {
    hide ValidUtf8, CharLength, ScanChar, ScanChars, CharDecoded, CharText, CharOk;
    AtFirst(raw, s.pos, CharsText(cs) + [QUOTE]);
    if cs == [] {
      ScanCharsEnd(raw, limits, start, s, maximum);
      assert s.decoded + Decoded(cs) == s.decoded;
    } else {
      var c, rest := cs[0], cs[1..];
      assert CharsText(cs) + [QUOTE] == CharText(c) + (CharsText(rest) + [QUOTE]);
      AtConcat(raw, s.pos, CharText(c), CharsText(rest) + [QUOTE]);
      CharTextLength(c);
      CompleteChar(raw, limits, s, c);
      ScanCharsStep(raw, limits, start, s, maximum);
      var next := ScanChar(raw, limits, s).value;
      CompleteChars(raw, limits, start, next, maximum, rest);
      assert s.decoded + Decoded(cs) == next.decoded + Decoded(rest);
    }
  }

  function RawLimit(limits: Limits, key: bool): nat {
    if key then limits.maxKeyLengthBytes else limits.maxStringLengthBytes
  }

  /** A successful `parse_string` read a derivable string within its limits, and returned
      its declarative unescaping. */
  lemma SoundString(raw: bytes, limits: Limits, c: Cursor, key: bool) returns (cs: Chars)
    requires Boundary(raw, c.pos) && UsageWithin(c.usage, limits) && ScanString(raw, limits, c, key).Ok?
    ensures CharsOk(cs) && At(raw, c.pos, StringText(cs)) && |CharsText(cs)| <= RawLimit(limits, key)
    ensures ScanString(raw, limits, c, key).value ==
            (Cursor(c.pos + |StringText(cs)|, Plus(c.usage, StringUsage(cs))), Decoded(cs))
    ensures UsageWithin(Plus(c.usage, StringUsage(cs)), limits)
  {
    hide ValidUtf8, CharLength, ScanChars, CharsText, Decoded, Escapes, CharsOk;
    StepAscii(raw, c.pos);
    cs := SoundChars(raw, limits, c.pos + 1, CharsScan(c.pos + 1, c.usage.escapes, []), RawLimit(limits, key));
    assert [] + Decoded(cs) == Decoded(cs);
    assert StringText(cs) == [QUOTE] + (CharsText(cs) + [QUOTE]);
    AtConcat(raw, c.pos, [QUOTE], CharsText(cs) + [QUOTE]);
  }

  lemma CompleteString(raw: bytes, limits: Limits, c: Cursor, key: bool, cs: Chars)
    requires Boundary(raw, c.pos) && CharsOk(cs) && At(raw, c.pos, StringText(cs))
    requires |CharsText(cs)| <= RawLimit(limits, key) && UsageWithin(Plus(c.usage, StringUsage(cs)), limits)
    ensures ScanString(raw, limits, c, key) ==
            Ok((Cursor(c.pos + |StringText(cs)|, Plus(c.usage, StringUsage(cs))), Decoded(cs)))
  {
    hide ValidUtf8, CharLength, ScanChars, CharsText, Decoded, Escapes, CharsOk;
    assert StringText(cs) == [QUOTE] + (CharsText(cs) + [QUOTE]);
    AtConcat(raw, c.pos, [QUOTE], CharsText(cs) + [QUOTE]);
    AtIndex(raw, c.pos, [QUOTE]);
    assert raw[c.pos + 0] == QUOTE;
    StepAscii(raw, c.pos);
    CompleteChars(raw, limits, c.pos + 1, CharsScan(c.pos + 1, c.usage.escapes, []), RawLimit(limits, key), cs);
    assert [] + Decoded(cs) == Decoded(cs);
  }

  /** The decoded form is valid UTF-8 and no longer than the text it was read from. */
  lemma {:induction false} DecodedIsText(cs: Chars)
    requires CharsOk(cs)
    ensures ValidUtf8(Decoded(cs)) && |Decoded(cs)| <= |CharsText(cs)|
  {
    if cs != [] {
      DecodedIsText(cs[1..]);
      CharTextLength(cs[0]);
      CharDecodedValid(cs[0]);
      ValidConcat(CharDecoded(cs[0]), Decoded(cs[1..]));
    }
  }

  lemma CharDecodedValid(c: Char)
    requires CharOk(c)
    ensures ValidUtf8(CharDecoded(c)) && ValidUtf8(CharText(c))
  {
    match c {
      case Plain(b) => AsciiValid([b]);
      case Multi(t) => OneChar(t);
      case Short(e) => AsciiValid([ShortEscape(e)]); AsciiValid([BACKSLASH, e]);
      case Unicode(q) => OneChar(EncodeUtf8(QuadValue(q))); AsciiValid(CharText(c));
      case Pair(hi, lo) =>
        OneChar(EncodeUtf8(PairScalar(QuadValue(hi), QuadValue(lo))));
        AsciiValid(CharText(c));
    }
  }

  // ----- numbers

  /** A byte that ends a number: nothing, white space, or a structural character. */
  predicate Follow(raw: bytes, pos: nat) {
    pos >= |raw| || IsSpace(raw[pos]) || raw[pos] == COMMA || raw[pos] == RBRACKET || raw[pos] == RBRACE
  }

  lemma {:induction false} SkipDigitsExact(raw: bytes, pos: nat, digits: bytes)
    requires AllDigits(digits) && At(raw, pos, digits)
    requires pos + |digits| == |raw| || !IsDigit(raw[pos + |digits|])
    ensures SkipDigits(raw, pos) == pos + |digits|
    decreases |digits|
  {
    AtIndex(raw, pos, digits);
    if digits != [] {
      assert raw[pos + 0] == digits[0];
      AtConcat(raw, pos, digits[..1], digits[1..]);
      assert digits == digits[..1] + digits[1..];
      SkipDigitsExact(raw, pos + 1, digits[1..]);
    }
  }

  /** The four parts of a number, in place. */
  lemma AtNumber(raw: bytes, pos: nat, n: Num)
    ensures At(raw, pos, NumText(n)) <==>
            && At(raw, pos, SignText(n)) && At(raw, pos + |SignText(n)|, n.whole)
            && At(raw, pos + |SignText(n) + n.whole|, FractionText(n.fraction))
            && At(raw, pos + |SignText(n) + n.whole + FractionText(n.fraction)|, ExponentText(n.exponent))
  {
    hide At, SignText, FractionText, ExponentText;
    var s, w, f, e := SignText(n), n.whole, FractionText(n.fraction), ExponentText(n.exponent);
    AtConcat(raw, pos, s + w + f, e);
    AtConcat(raw, pos, s + w, f);
    AtConcat(raw, pos, s, w);
  }

  lemma SoundFraction(raw: bytes, pos: nat) returns (f: Option<bytes>)
    requires Boundary(raw, pos) && ScanFraction(raw, pos).Ok?
    ensures f.Some? ==> f.value != [] && AllDigits(f.value)
    ensures At(raw, pos, FractionText(f)) && ScanFraction(raw, pos) == Ok(pos + |FractionText(f)|)
  {
    hide ValidUtf8, CharLength;
    var end := ScanFraction(raw, pos).value;
    if Here(raw, pos, DOT) {
      StepAscii(raw, pos);
      f := Some(raw[pos + 1..end]);
      assert raw[pos..end] == [DOT] + raw[pos + 1..end];
    } else {
      f := None;
    }
  }

  lemma SoundNumber(raw: bytes, limits: Limits, pos: nat) returns (n: Num)
    requires Boundary(raw, pos) && ScanNumber(raw, limits, pos).Ok?
    ensures NumOk(n) && At(raw, pos, NumText(n)) && ScanNumber(raw, limits, pos) == Ok(pos + |NumText(n)|)
    ensures |NumText(n)| <= limits.maxNumericTokenLength
  {
    hide ValidUtf8, CharLength, ScanExponent, ExponentText, ScanFraction, FractionText, ScanWhole, AllDigits, ExponentOk, At, NumText;
    var negative := Here(raw, pos, MINUS);
    if negative { StepAscii(raw, pos); }
    var digits := if negative then pos + 1 else pos;
    var whole := ScanWhole(raw, digits).value;
    SliceAt(raw, pos, digits);
    SliceAt(raw, digits, whole);
    SoundWhole(raw, digits);
    var f := SoundFraction(raw, whole);
    var e := SoundExponent(raw, ScanFraction(raw, whole).value);
    n := Num(negative, raw[digits..whole], f, e);
    assert raw[pos..digits] == SignText(n);
    NumLength(n);
    AtNumber(raw, pos, n);
  }

  lemma SliceAt(raw: bytes, from: nat, to: nat)
    requires from <= to <= |raw|
    ensures At(raw, from, raw[from..to])
  {
  }

  lemma NumLength(n: Num)
    ensures |NumText(n)| == |SignText(n)| + |n.whole| + |FractionText(n.fraction)| + |ExponentText(n.exponent)|
  {
    hide SignText, FractionText, ExponentText;
  }

  lemma SoundWhole(raw: bytes, pos: nat)
    requires Boundary(raw, pos) && ScanWhole(raw, pos).Ok?
    ensures var w := raw[pos..ScanWhole(raw, pos).value];
            w != [] && AllDigits(w) && (w[0] == 0x30 ==> |w| == 1)
  {
    var end := ScanWhole(raw, pos).value;
    StepAscii(raw, pos);
    assert raw[pos..end] == [raw[pos]] + raw[pos + 1..end];
  }

  lemma SoundExponent(raw: bytes, pos: nat) returns (e: Option<Exponent>)
    requires Boundary(raw, pos) && ScanExponent(raw, pos).Ok?
    ensures e.Some? ==> ExponentOk(e.value)
    ensures At(raw, pos, ExponentText(e)) && ScanExponent(raw, pos) == Ok(pos + |ExponentText(e)|)
  {
    var end := ScanExponent(raw, pos).value;
    if pos < |raw| && IsExpMark(raw[pos]) {
      StepAscii(raw, pos);
      var sign := if pos + 1 < |raw| && IsSign(raw[pos + 1]) then [raw[pos + 1]] else [];
      var digits := pos + 1 + |sign|;
      e := Some(Exponent(raw[pos], sign, raw[digits..end]));
      assert raw[pos..end] == [raw[pos]] + sign + raw[digits..end];
    } else {
      e := None;
    }
  }

  lemma CompleteExponent(raw: bytes, pos: nat, e: Option<Exponent>)
    requires Boundary(raw, pos) && (e.Some? ==> ExponentOk(e.value)) && At(raw, pos, ExponentText(e))
    requires Follow(raw, pos + |ExponentText(e)|)
    ensures ScanExponent(raw, pos) == Ok(pos + |ExponentText(e)|)
  {
    hide ValidUtf8, CharLength;
    if e.Some? {
      var x := e.value;
      AtIndex(raw, pos, ExponentText(e));
      assert raw[pos + 0] == x.mark;
      AtConcat(raw, pos, [x.mark] + x.sign, x.digits);
      assert raw[pos + 1] == (if x.sign == [] then x.digits[0] else x.sign[0]);
      StepAscii(raw, pos);
      if x.sign != [] { StepAscii(raw, pos + 1); }
      SkipDigitsExact(raw, pos + 1 + |x.sign|, x.digits);
    }
  }

  lemma CompleteFraction(raw: bytes, pos: nat, f: Option<bytes>)
    requires Boundary(raw, pos) && (f.Some? ==> f.value != [] && AllDigits(f.value)) && At(raw, pos, FractionText(f))
    requires pos + |FractionText(f)| < |raw| ==>
               !IsDigit(raw[pos + |FractionText(f)|]) && (f.None? ==> raw[pos] != DOT)
    ensures ScanFraction(raw, pos) == Ok(pos + |FractionText(f)|)
  {
    if f.Some? {
      AtIndex(raw, pos, FractionText(f));
      assert raw[pos + 0] == DOT;
      AtConcat(raw, pos, [DOT], f.value);
      StepAscii(raw, pos);
      SkipDigitsExact(raw, pos + 1, f.value);
    }
  }

  lemma CompleteWhole(raw: bytes, pos: nat, whole: bytes)
    requires Boundary(raw, pos) && whole != [] && AllDigits(whole) && (whole[0] == 0x30 ==> |whole| == 1)
    requires At(raw, pos, whole) && (pos + |whole| < |raw| ==> !IsDigit(raw[pos + |whole|]))
    ensures ScanWhole(raw, pos) == Ok(pos + |whole|)
  {
    AtIndex(raw, pos, whole);
    assert raw[pos + 0] == whole[0];
    assert whole == whole[..1] + whole[1..];
    AtConcat(raw, pos, whole[..1], whole[1..]);
    StepAscii(raw, pos);
    if whole[0] != 0x30 { SkipDigitsExact(raw, pos + 1, whole[1..]); }
  }

  lemma CompleteNumber(raw: bytes, limits: Limits, pos: nat, n: Num)
    requires Boundary(raw, pos) && NumOk(n) && At(raw, pos, NumText(n)) && Follow(raw, pos + |NumText(n)|)
    requires |NumText(n)| <= limits.maxNumericTokenLength
    ensures ScanNumber(raw, limits, pos) == Ok(pos + |NumText(n)|)
    ensures pos < |raw| && (raw[pos] == MINUS || IsDigit(raw[pos]))
  {
    hide ValidUtf8, CharLength, ScanExponent, ScanFraction, ScanWhole, At;
    var s, w, f, e := SignText(n), n.whole, FractionText(n.fraction), ExponentText(n.exponent);
    AtNumber(raw, pos, n);
    var atWhole, atFraction, atExponent := pos + |s|, pos + |s + w|, pos + |s + w + f|;
    AtFirst(raw, atWhole, w);
    if s != [] { AtFirst(raw, pos, s); StepAscii(raw, pos); }
    if e != [] { AtFirst(raw, atExponent, e); }
    if f != [] { AtFirst(raw, atFraction, f); }
    assert NumText(n) == s + w + f + e;
    CompleteWhole(raw, atWhole, w);
    CompleteFraction(raw, atFraction, n.fraction);
    CompleteExponent(raw, atExponent, n.exponent);
  }
}
