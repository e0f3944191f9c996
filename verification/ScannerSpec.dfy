/** The scanner as functions of (bytes, cursor): what each method of `Scanner` computes,
    with the source's order of checks and its errors. */
module ScannerSpec {
  import opened Bytes
  import opened Utf8
  import opened JsonGrammar
  import opened Wrappers

  datatype InputError =
    BodyLimitExceeded | InvalidUtf8 | InputLimitExceeded | DuplicateField | NonCanonicalField | MalformedJson

  type Scan<+T> = Result<T, InputError>

  /** The mutable part of the source's `Scanner`. */
  datatype Cursor = Cursor(pos: nat, usage: Usage)

  /** The cursor stands between two characters of valid UTF-8 text. */
  predicate Boundary(raw: bytes, pos: nat) {
    pos <= |raw| && ValidUtf8(raw[pos..])
  }

  predicate Here(raw: bytes, pos: nat, b: byte) {
    pos < |raw| && raw[pos] == b
  }

  lemma StepAscii(raw: bytes, pos: nat)
    requires Boundary(raw, pos) && pos < |raw| && raw[pos] <= 0x7F
    ensures Boundary(raw, pos + 1)
  {
    assert CharLength(raw[pos..]) == 1;
    assert raw[pos..][1..] == raw[pos + 1..];
  }

  lemma StepChar(raw: bytes, pos: nat)
    requires Boundary(raw, pos) && pos < |raw|
    ensures 0 < CharLength(raw[pos..]) <= |raw| - pos && Boundary(raw, pos + CharLength(raw[pos..]))
  {
    var n := CharLength(raw[pos..]);
    assert raw[pos..][n..] == raw[pos + n..];
  }

  function SkipSpace(raw: bytes, pos: nat): (r: nat)
    requires pos <= |raw|
    ensures pos <= r <= |raw| && AllSpace(raw[pos..r]) && !(r < |raw| && IsSpace(raw[r]))
    ensures Boundary(raw, pos) ==> Boundary(raw, r)
    decreases |raw| - pos
  {
    if pos < |raw| && IsSpace(raw[pos]) then
      var r := SkipSpace(raw, pos + 1);
      assert Boundary(raw, pos) ==> Boundary(raw, r) by {
        if Boundary(raw, pos) { StepAscii(raw, pos); }
      }
      assert raw[pos..r] == [raw[pos]] + raw[pos + 1..r];
      r
    else pos
  }

  function SkipDigits(raw: bytes, pos: nat): (r: nat)
    requires pos <= |raw|
    ensures pos <= r <= |raw| && AllDigits(raw[pos..r]) && !(r < |raw| && IsDigit(raw[r]))
    ensures Boundary(raw, pos) ==> Boundary(raw, r)
    decreases |raw| - pos
  {
    if pos < |raw| && IsDigit(raw[pos]) then
      var r := SkipDigits(raw, pos + 1);
      assert Boundary(raw, pos) ==> Boundary(raw, r) by {
        if Boundary(raw, pos) { StepAscii(raw, pos); }
      }
      assert raw[pos..r] == [raw[pos]] + raw[pos + 1..r];
      r
    else pos
  }

  // ----- strings

  /** `read_hex_quad`: four hexadecimal digits, as text. */
  function ScanQuad(raw: bytes, pos: nat): (r: Scan<Quad>)
    requires pos <= |raw|
    ensures r.Ok? <==> pos + 4 <= |raw| && forall i :: pos <= i < pos + 4 ==> IsHex(raw[i])
    ensures r.Ok? ==> r.value == raw[pos..pos + 4]
    ensures r.Err? ==> r.error == MalformedJson
    ensures r.Ok? && Boundary(raw, pos) ==> Boundary(raw, pos + 4)
  {
    if pos + 4 <= |raw| && IsHex(raw[pos]) && IsHex(raw[pos + 1]) && IsHex(raw[pos + 2]) && IsHex(raw[pos + 3]) then
      assert Boundary(raw, pos) ==> Boundary(raw, pos + 4) by {
        if Boundary(raw, pos) {
          StepAscii(raw, pos); StepAscii(raw, pos + 1); StepAscii(raw, pos + 2); StepAscii(raw, pos + 3);
        }
      }
      var q := raw[pos..pos + 4];
      assert q[0] == raw[pos] && q[1] == raw[pos + 1] && q[2] == raw[pos + 2] && q[3] == raw[pos + 3];
      Ok(q)
    else Err(MalformedJson)
  }

  /** `decode_escape`, from the byte after the backslash: the position behind the escape and
      the bytes it stands for. */
  function ScanEscape(raw: bytes, pos: nat): (r: Scan<(nat, bytes)>)
    requires pos <= |raw|
    ensures r.Ok? ==> pos < r.value.0 <= |raw|
    ensures r.Ok? && Boundary(raw, pos) ==> Boundary(raw, r.value.0)
    ensures r.Err? ==> r.error == MalformedJson
  {
    if pos == |raw| then Err(MalformedJson)
    else if IsShortEscape(raw[pos]) then
      assert Boundary(raw, pos) ==> Boundary(raw, pos + 1) by { if Boundary(raw, pos) { StepAscii(raw, pos); } }
      Ok((pos + 1, [ShortEscape(raw[pos])]))
    else if raw[pos] == LOWER_U then
      assert Boundary(raw, pos) ==> Boundary(raw, pos + 1) by { if Boundary(raw, pos) { StepAscii(raw, pos); } }
      var first :- ScanQuad(raw, pos + 1);
      if HighSurrogate(QuadValue(first)) then
        if !(Here(raw, pos + 5, BACKSLASH) && Here(raw, pos + 6, LOWER_U)) then Err(MalformedJson) else
        assert Boundary(raw, pos) ==> Boundary(raw, pos + 7) by {
          if Boundary(raw, pos) { StepAscii(raw, pos + 5); StepAscii(raw, pos + 6); }
        }
        var second :- ScanQuad(raw, pos + 7);
        if !LowSurrogate(QuadValue(second)) then Err(MalformedJson)
        else Ok((pos + 11, EncodeUtf8(PairScalar(QuadValue(first), QuadValue(second)))))
      else if LowSurrogate(QuadValue(first)) then Err(MalformedJson)
      else Ok((pos + 5, EncodeUtf8(QuadValue(first))))
    else Err(MalformedJson)
  }

  datatype CharsScan = CharsScan(pos: nat, escapes: nat, decoded: bytes)

  /** One character of a string, escaped or not. */
  function ScanChar(raw: bytes, limits: Limits, s: CharsScan): (r: Scan<CharsScan>)
    requires Boundary(raw, s.pos) && s.pos < |raw|
    ensures r.Ok? ==> s.pos < r.value.pos && Boundary(raw, r.value.pos)
    ensures r.Err? ==> r.error != InvalidUtf8 && r.error != BodyLimitExceeded
  {
    if raw[s.pos] < 0x20 then Err(MalformedJson)
    else if raw[s.pos] == BACKSLASH then
      StepAscii(raw, s.pos);
      if s.escapes + 1 > limits.maxEscapeCount then Err(InputLimitExceeded)
      else
        var e :- ScanEscape(raw, s.pos + 1);
        Ok(CharsScan(e.0, s.escapes + 1, s.decoded + e.1))
    else if raw[s.pos] <= 0x7f then
      StepAscii(raw, s.pos);
      Ok(CharsScan(s.pos + 1, s.escapes, s.decoded + [raw[s.pos]]))
    else
      StepChar(raw, s.pos);
      var n := CharLength(raw[s.pos..]);
      Ok(CharsScan(s.pos + n, s.escapes, s.decoded + raw[s.pos..s.pos + n]))
  }

  /** The loop of `parse_string`; `start` is the first byte behind the opening quote, and
      the result stands behind the closing one. */
  function ScanChars(raw: bytes, limits: Limits, start: nat, s: CharsScan, maximum: nat): (r: Scan<CharsScan>)
    requires start <= s.pos <= |raw| && Boundary(raw, s.pos)
    ensures r.Ok? ==> s.pos < r.value.pos <= |raw| && Boundary(raw, r.value.pos)
    ensures r.Err? ==> r.error != InvalidUtf8 && r.error != BodyLimitExceeded
    decreases |raw| - s.pos
  {
    if s.pos == |raw| then Err(MalformedJson)
    else if raw[s.pos] == QUOTE then
      StepAscii(raw, s.pos);
      Ok(s.(pos := s.pos + 1))
    else if s.pos - start > maximum then Err(InputLimitExceeded)
    else
      var next :- ScanChar(raw, limits, s);
      if |next.decoded| > maximum then Err(InputLimitExceeded)
      else ScanChars(raw, limits, start, next, maximum)
  }

  /** `parse_string` */
  function ScanString(raw: bytes, limits: Limits, c: Cursor, key: bool): (r: Scan<(Cursor, bytes)>)
    requires Boundary(raw, c.pos)
    ensures r.Ok? ==> c.pos < r.value.0.pos && Boundary(raw, r.value.0.pos)
    ensures r.Err? ==> r.error != InvalidUtf8 && r.error != BodyLimitExceeded
  {
    if !Here(raw, c.pos, QUOTE) then Err(MalformedJson)
    else
      StepAscii(raw, c.pos);
      var start := c.pos + 1;
      var maximum := if key then limits.maxKeyLengthBytes else limits.maxStringLengthBytes;
      var s :- ScanChars(raw, limits, start, CharsScan(start, c.usage.escapes, []), maximum);
      if s.pos - start - 1 > maximum then Err(InputLimitExceeded)
      else if c.usage.stringBytes + |s.decoded| > limits.maxTotalStringBytes then Err(InputLimitExceeded)
      else
        Ok((Cursor(s.pos, c.usage.(stringBytes := c.usage.stringBytes + |s.decoded|, escapes := s.escapes)),
            s.decoded))
  }

  // ----- numbers and literals

  function ScanWhole(raw: bytes, pos: nat): (r: Scan<nat>)
    requires Boundary(raw, pos)
    ensures r.Ok? ==> pos < r.value && Boundary(raw, r.value)
    ensures r.Err? ==> r.error == MalformedJson
  {
    if pos == |raw| || !IsDigit(raw[pos]) then Err(MalformedJson)
    else
      StepAscii(raw, pos);
      if raw[pos] == 0x30 then
        if pos + 1 < |raw| && IsDigit(raw[pos + 1]) then Err(MalformedJson) else Ok(pos + 1)
      else Ok(SkipDigits(raw, pos + 1))
  }

  function ScanFraction(raw: bytes, pos: nat): (r: Scan<nat>)
    requires Boundary(raw, pos)
    ensures r.Ok? ==> pos <= r.value && Boundary(raw, r.value)
    ensures r.Err? ==> r.error == MalformedJson
  {
    if !Here(raw, pos, DOT) then Ok(pos)
    else
      StepAscii(raw, pos);
      var end := SkipDigits(raw, pos + 1);
      if end == pos + 1 then Err(MalformedJson) else Ok(end)
  }

  function ScanExponent(raw: bytes, pos: nat): (r: Scan<nat>)
    requires Boundary(raw, pos)
    ensures r.Ok? ==> pos <= r.value && Boundary(raw, r.value)
    ensures r.Err? ==> r.error == MalformedJson
  {
    if !(pos < |raw| && IsExpMark(raw[pos])) then Ok(pos)
    else
      StepAscii(raw, pos);
      var digits := if pos + 1 < |raw| && IsSign(raw[pos + 1]) then StepAscii(raw, pos + 1); pos + 2 else pos + 1;
      var end := SkipDigits(raw, digits);
      if end == digits then Err(MalformedJson) else Ok(end)
  }

  /** `parse_number` */
  function ScanNumber(raw: bytes, limits: Limits, pos: nat): (r: Scan<nat>)
    requires Boundary(raw, pos)
    ensures r.Ok? ==> pos < r.value && Boundary(raw, r.value)
    ensures r.Err? ==> r.error != InvalidUtf8 && r.error != BodyLimitExceeded
  {
    var digits := if Here(raw, pos, MINUS) then StepAscii(raw, pos); pos + 1 else pos;
    var whole :- ScanWhole(raw, digits);
    var fraction :- ScanFraction(raw, whole);
    var end :- ScanExponent(raw, fraction);
    if end - pos > limits.maxNumericTokenLength then Err(InputLimitExceeded) else Ok(end)
  }

  predicate At(raw: bytes, pos: nat, text: bytes) {
    pos + |text| <= |raw| && raw[pos..pos + |text|] == text
  }

  lemma {:induction false} AsciiBoundary(raw: bytes, pos: nat, n: nat)
    requires Boundary(raw, pos) && pos + n <= |raw|
    requires forall i :: pos <= i < pos + n ==> raw[i] <= 0x7F
    ensures Boundary(raw, pos + n)
    decreases n
  {
    if n > 0 {
      StepAscii(raw, pos);
      AsciiBoundary(raw, pos + 1, n - 1);
    }
  }

  lemma LiteralBoundary(raw: bytes, pos: nat, w: Word)
    requires Boundary(raw, pos) && At(raw, pos, WordText(w))
    ensures WordText(w) != [] && Boundary(raw, pos + |WordText(w)|)
  {
    hide Boundary;
    var text := WordText(w);
    assert forall i :: pos <= i < pos + |text| ==> raw[i] == raw[pos..pos + |text|][i - pos] == text[i - pos];
    AsciiBoundary(raw, pos, |text|);
  }

  /** `consume_literal` */
  function ScanLiteral(raw: bytes, pos: nat, w: Word): (r: Scan<nat>)
    requires Boundary(raw, pos)
    ensures r.Ok? ==> pos < r.value && Boundary(raw, r.value)
    ensures r.Err? ==> r.error == MalformedJson
  {
    var text := WordText(w);
    if At(raw, pos, text) then
      LiteralBoundary(raw, pos, w);
      Ok(pos + |text|)
    else Err(MalformedJson)
  }

  // ----- values

  /** What stands behind an item or a member: the closing bracket, or a comma and the next one. */
  datatype Separator = Close(pos: nat) | Next(pos: nat)

  function ScanSeparator(raw: bytes, pos: nat, close: byte): (r: Scan<Separator>)
    requires Boundary(raw, pos) && close <= 0x7F
    ensures r.Ok? ==> pos < r.value.pos && Boundary(raw, r.value.pos)
    ensures r.Err? ==> r.error == MalformedJson
  {
    var p := SkipSpace(raw, pos);
    if Here(raw, p, close) then StepAscii(raw, p); Ok(Close(p + 1))
    else if Here(raw, p, COMMA) then StepAscii(raw, p); Ok(Next(SkipSpace(raw, p + 1)))
    else Err(MalformedJson)
  }

  function ScanColon(raw: bytes, pos: nat): (r: Scan<nat>)
    requires Boundary(raw, pos)
    ensures r.Ok? ==> pos < r.value && Boundary(raw, r.value)
    ensures r.Err? ==> r.error == MalformedJson
  {
    var p := SkipSpace(raw, pos);
    if Here(raw, p, COLON) then StepAscii(raw, p); Ok(p + 1) else Err(MalformedJson)
  }

  /** `parse_value` */
  function ScanValue(raw: bytes, limits: Limits, c: Cursor, depth: nat): (r: Scan<Cursor>)
    requires Boundary(raw, c.pos)
    ensures r.Ok? ==> c.pos < r.value.pos && Boundary(raw, r.value.pos)
    ensures r.Err? ==> r.error != InvalidUtf8 && r.error != BodyLimitExceeded
    decreases |raw| - c.pos, 3
  {
    var usage := Plus(c.usage, ONE_TOKEN);
    if usage.tokens > limits.maxTotalTokens then Err(InputLimitExceeded)
    else ScanBody(raw, limits, Cursor(SkipSpace(raw, c.pos), usage), depth)
  }

  /** The dispatch of `parse_value` on the first byte. */
  function ScanBody(raw: bytes, limits: Limits, c: Cursor, depth: nat): (r: Scan<Cursor>)
    requires Boundary(raw, c.pos)
    ensures r.Ok? ==> c.pos < r.value.pos && Boundary(raw, r.value.pos)
    ensures r.Err? ==> r.error != InvalidUtf8 && r.error != BodyLimitExceeded
    decreases |raw| - c.pos, 2
  {
    if c.pos == |raw| then Err(MalformedJson)
    else
      var b := raw[c.pos];
      if b == LBRACE then ScanObject(raw, limits, c, depth + 1)
      else if b == LBRACKET then ScanArray(raw, limits, c, depth + 1)
      else if b == QUOTE then var s :- ScanString(raw, limits, c, false); Ok(s.0)
      else if b == 0x74 then var p :- ScanLiteral(raw, c.pos, True); Ok(Cursor(p, c.usage))
      else if b == 0x66 then var p :- ScanLiteral(raw, c.pos, False); Ok(Cursor(p, c.usage))
      else if b == 0x6e then var p :- ScanLiteral(raw, c.pos, Null); Ok(Cursor(p, c.usage))
      else if b == MINUS || IsDigit(b) then var p :- ScanNumber(raw, limits, c.pos); Ok(Cursor(p, c.usage))
      else Err(MalformedJson)
  }

  /** `parse_array`, standing at the opening bracket. */
  function ScanArray(raw: bytes, limits: Limits, c: Cursor, depth: nat): (r: Scan<Cursor>)
    requires Boundary(raw, c.pos) && Here(raw, c.pos, LBRACKET)
    ensures r.Ok? ==> c.pos < r.value.pos && Boundary(raw, r.value.pos)
    ensures r.Err? ==> r.error != InvalidUtf8 && r.error != BodyLimitExceeded
    decreases |raw| - c.pos, 1
  {
    if depth > limits.maxNestingDepth then Err(InputLimitExceeded)
    else
      StepAscii(raw, c.pos);
      var pos := SkipSpace(raw, c.pos + 1);
      if Here(raw, pos, RBRACKET) then StepAscii(raw, pos); Ok(Cursor(pos + 1, c.usage))
      else ScanItems(raw, limits, Cursor(pos, c.usage), depth, 0)
  }

  /** One turn of the loop of `parse_array`, and the turns behind it. */
  function ScanItems(raw: bytes, limits: Limits, c: Cursor, depth: nat, count: nat): (r: Scan<Cursor>)
    requires Boundary(raw, c.pos)
    ensures r.Ok? ==> c.pos < r.value.pos && Boundary(raw, r.value.pos)
    ensures r.Err? ==> r.error != InvalidUtf8 && r.error != BodyLimitExceeded
    decreases |raw| - c.pos, 4
  {
    if count + 1 > limits.maxArrayLength then Err(InputLimitExceeded)
    else
      var v :- ScanValue(raw, limits, c, depth);
      var s :- ScanSeparator(raw, v.pos, RBRACKET);
      if s.Close? then Ok(Cursor(s.pos, v.usage))
      else ScanItems(raw, limits, Cursor(s.pos, v.usage), depth, count + 1)
  }

  /** `parse_object`, standing at the opening brace. */
  function ScanObject(raw: bytes, limits: Limits, c: Cursor, depth: nat): (r: Scan<Cursor>)
    requires Boundary(raw, c.pos) && Here(raw, c.pos, LBRACE)
    ensures r.Ok? ==> c.pos < r.value.pos && Boundary(raw, r.value.pos)
    ensures r.Err? ==> r.error != InvalidUtf8 && r.error != BodyLimitExceeded
    decreases |raw| - c.pos, 1
  {
    if depth > limits.maxNestingDepth then Err(InputLimitExceeded)
    else
      StepAscii(raw, c.pos);
      var pos := SkipSpace(raw, c.pos + 1);
      if Here(raw, pos, RBRACE) then StepAscii(raw, pos); Ok(Cursor(pos + 1, c.usage))
      else ScanMembers(raw, limits, Cursor(pos, c.usage), depth, {})
  }

  /** The key part of one turn of the loop of `parse_object`. */
  function ScanKey(raw: bytes, limits: Limits, c: Cursor, keys: set<bytes>): (r: Scan<(Cursor, bytes)>)
    requires Boundary(raw, c.pos)
    ensures r.Ok? ==> c.pos < r.value.0.pos && Boundary(raw, r.value.0.pos)
    ensures r.Err? ==> r.error != InvalidUtf8 && r.error != BodyLimitExceeded
  {
    var k :- ScanString(raw, limits, c, true);
    var usage := Plus(k.0.usage, Usage(0, 1, 0, 0));
    if !CoreKey(k.1) then Err(NonCanonicalField)
    else if k.1 in keys then Err(DuplicateField)
    else if |keys + {k.1}| > limits.maxKeysPerObject || usage.keys > limits.maxTotalObjectKeys then
      Err(InputLimitExceeded)
    else Ok((Cursor(k.0.pos, usage), k.1))
  }

  function ScanMembers(raw: bytes, limits: Limits, c: Cursor, depth: nat, keys: set<bytes>): (r: Scan<Cursor>)
    requires Boundary(raw, c.pos)
    ensures r.Ok? ==> c.pos < r.value.pos && Boundary(raw, r.value.pos)
    ensures r.Err? ==> r.error != InvalidUtf8 && r.error != BodyLimitExceeded
    decreases |raw| - c.pos, 4
  {
    var k :- ScanKey(raw, limits, c, keys);
    var colon :- ScanColon(raw, k.0.pos);
    var v :- ScanValue(raw, limits, Cursor(colon, k.0.usage), depth);
    var s :- ScanSeparator(raw, v.pos, RBRACE);
    if s.Close? then Ok(Cursor(s.pos, v.usage))
    else ScanMembers(raw, limits, Cursor(s.pos, v.usage), depth, keys + {k.1})
  }

  /** `validate_bounded_json` */
  function Validate(raw: bytes, limits: Limits): (r: Scan<()>)
  {
    if |raw| > limits.maxBodyBytes then Err(BodyLimitExceeded)
    else if !ValidUtf8(raw) then Err(InvalidUtf8)
    else
      assert raw[0..] == raw;
      var c :- ScanValue(raw, limits, Cursor(SkipSpace(raw, 0), NOTHING), 0);
      if SkipSpace(raw, c.pos) != |raw| then Err(MalformedJson) else Ok(())
  }
}
