/** The bounded JSON scanner as the source runs it: one cursor and four counters, updated in
    place.  Each method is proved to compute its function in `ScannerSpec`; what those
    functions accept is the subject of `ScannerTheorems`. */
module Scanner {
  import opened Bytes
  import opened Utf8
  import opened JsonGrammar
  import opened Wrappers
  import opened ScannerSpec

  class Scanner {
    const raw: bytes
    const limits: Limits
    var position: nat
    var totalTokens: nat
    var totalKeys: nat
    var totalStringBytes: nat
    var totalEscapes: nat

    ghost predicate Valid()
      reads this
    {
      Boundary(raw, position)
    }

    function State(): Cursor
      reads this
    {
      Cursor(position, Usage(totalTokens, totalKeys, totalStringBytes, totalEscapes))
    }

    /** The method did what `spec` says: same outcome, and on success the state it gives. */
    ghost predicate Reached(spec: Scan<Cursor>, r: Scan<()>)
      reads this
    {
      match spec
      case Ok(c) => r == Ok(()) && State() == c && Valid()
      case Err(e) => r == Err(e)
    }

    /** The cursor moved to the position `spec` gives; the frame says that nothing else did. */
    ghost predicate Moved(spec: Scan<nat>, r: Scan<()>)
      reads this
    {
      match spec
      case Ok(p) => r == Ok(()) && position == p && Valid()
      case Err(e) => r == Err(e)
    }

    constructor (raw: bytes, limits: Limits)
      requires ValidUtf8(raw)
      ensures Valid() && this.raw == raw && this.limits == limits && State() == Cursor(0, NOTHING)
    {
      this.raw, this.limits := raw, limits;
      position, totalTokens, totalKeys, totalStringBytes, totalEscapes := 0, 0, 0, 0, 0;
      new;
      assert raw[0..] == raw;
    }

    method Peek() returns (b: Option<byte>)
      ensures b == if position < |raw| then Some(raw[position]) else None
    {
      b := if position < |raw| then Some(raw[position]) else None;
    }

    method Next() returns (b: Option<byte>)
      modifies this`position
      ensures old(position) < |raw| ==> b == Some(raw[old(position)]) && position == old(position) + 1
      ensures old(position) >= |raw| ==> b == None && position == old(position)
    {
      b := Peek();
      if b.Some? { position := position + 1; }
    }

    method ConsumeIf(expected: byte) returns (hit: bool)
      requires Valid() && expected <= 0x7F
      modifies this`position
      ensures Valid() && hit == Here(raw, old(position), expected)
      ensures position == if hit then old(position) + 1 else old(position)
    {
      var b := Peek();
      if b == Some(expected) {
        StepAscii(raw, position);
        position := position + 1;
        return true;
      }
      return false;
    }

    method RequireByte(expected: byte) returns (r: Scan<()>)
      requires Valid() && expected <= 0x7F
      modifies this`position
      ensures Here(raw, old(position), expected) ==> r == Ok(()) && position == old(position) + 1 && Valid()
      ensures !Here(raw, old(position), expected) ==> r == Err(MalformedJson)
    {
      hide ValidUtf8, CharLength;
      ghost var start := position;
      var b := Next();
      if b == Some(expected) {
        StepAscii(raw, start);
        return Ok(());
      }
      return Err(MalformedJson);
    }

    method SkipWhitespace()
      requires Valid()
      modifies this`position
      ensures Valid() && position == SkipSpace(raw, old(position))
    {
      hide ValidUtf8, CharLength;
      while position < |raw| && IsSpace(raw[position])
        invariant Valid() && SkipSpace(raw, position) == SkipSpace(raw, old(position))
      {
        StepAscii(raw, position);
        position := position + 1;
      }
    }

    /** The digit loop that `parse_number` writes three times. */
    method SkipDigitRun()
      requires Valid()
      modifies this`position
      ensures Valid() && position == SkipDigits(raw, old(position))
    {
      hide ValidUtf8, CharLength;
      while position < |raw| && IsDigit(raw[position])
        invariant Valid() && SkipDigits(raw, position) == SkipDigits(raw, old(position))
      {
        StepAscii(raw, position);
        position := position + 1;
      }
    }

    method IncrementToken() returns (r: Scan<()>)
      modifies this`totalTokens
      ensures totalTokens == old(totalTokens) + 1
      ensures r == if totalTokens > limits.maxTotalTokens then Err(InputLimitExceeded) else Ok(())
    {
      totalTokens := totalTokens + 1;
      r := if totalTokens > limits.maxTotalTokens then Err(InputLimitExceeded) else Ok(());
    }

    method CheckDepth(depth: nat) returns (r: Scan<()>)
      ensures r == if depth > limits.maxNestingDepth then Err(InputLimitExceeded) else Ok(())
    {
      r := if depth > limits.maxNestingDepth then Err(InputLimitExceeded) else Ok(());
    }

    method ConsumeLiteral(w: Word) returns (r: Scan<()>)
      requires Valid()
      modifies this`position
      ensures Moved(ScanLiteral(raw, old(position), w), r)
    {
      hide ValidUtf8, CharLength;
      var text := WordText(w);
      if !(position + |text| <= |raw| && raw[position..position + |text|] == text) {
        return Err(MalformedJson);
      }
      position := position + |text|;
      return Ok(());
    }

    method ParseNumber() returns (r: Scan<()>)
      requires Valid()
      modifies this`position
      ensures Moved(ScanNumber(raw, limits, old(position)), r)
    {
      hide ValidUtf8, CharLength;
      var start := position;
      var _ := ConsumeIf(MINUS);
      var _ :- ParseWhole();
      var _ :- ParseFraction();
      var _ :- ParseExponent();
      if position - start > limits.maxNumericTokenLength {
        return Err(InputLimitExceeded);
      }
      return Ok(());
    }

    method ParseWhole() returns (r: Scan<()>)
      requires Valid()
      modifies this`position
      ensures Moved(ScanWhole(raw, old(position)), r)
    {
      hide ValidUtf8, CharLength;
      ghost var start := position;
      var first := Next();
      if first.None? || !IsDigit(first.value) {
        return Err(MalformedJson);
      }
      StepAscii(raw, start);
      if first.value == 0x30 {
        var b := Peek();
        if b.Some? && IsDigit(b.value) {
          return Err(MalformedJson);
        }
      } else {
        SkipDigitRun();
      }
      return Ok(());
    }

    method ParseFraction() returns (r: Scan<()>)
      requires Valid()
      modifies this`position
      ensures Moved(ScanFraction(raw, old(position)), r)
    {
      hide ValidUtf8, CharLength;
      var dot := ConsumeIf(DOT);
      if dot {
        var fractionStart := position;
        SkipDigitRun();
        if position == fractionStart {
          return Err(MalformedJson);
        }
      }
      return Ok(());
    }

    method ParseExponent() returns (r: Scan<()>)
      requires Valid()
      modifies this`position
      ensures Moved(ScanExponent(raw, old(position)), r)
    {
      hide ValidUtf8, CharLength;
      var mark := Peek();
      if mark.Some? && IsExpMark(mark.value) {
        StepAscii(raw, position);
        position := position + 1;
        var sign := Peek();
        if sign.Some? && IsSign(sign.value) {
          StepAscii(raw, position);
          position := position + 1;
        }
        var exponentStart := position;
        SkipDigitRun();
        if position == exponentStart {
          return Err(MalformedJson);
        }
      }
      return Ok(());
    }

    /** `read_hex_quad`: the value fits 16 bits at every step, so the source's `u16` never wraps. */
    method ReadHexQuad() returns (r: Scan<nat>)
      requires Valid()
      modifies this`position
      ensures var spec := ScanQuad(raw, old(position));
              && (spec.Ok? ==> r == Ok(QuadValue(spec.value)) && position == old(position) + 4 && Valid())
              && (spec.Err? ==> r == Err(MalformedJson))
    {
      hide ValidUtf8, CharLength;
      var start := position;
      var value := 0;
      for i := 0 to 4
        invariant position == start + i <= |raw|
        invariant forall k :: start <= k < start + i ==> IsHex(raw[k])
        invariant i == 0 ==> value == 0
        invariant i == 1 ==> value == HexValue(raw[start])
        invariant i == 2 ==> value == 16 * HexValue(raw[start]) + HexValue(raw[start + 1])
        invariant i == 3 ==> value == 256 * HexValue(raw[start]) + 16 * HexValue(raw[start + 1]) + HexValue(raw[start + 2])
        invariant i == 4 ==> value == 4096 * HexValue(raw[start]) + 256 * HexValue(raw[start + 1])
                                      + 16 * HexValue(raw[start + 2]) + HexValue(raw[start + 3])
      {
        var b := Next();
        if b.None? || !IsHex(b.value) {
          return Err(MalformedJson);
        }
        value := value * 16 + HexValue(b.value);
        assert value <= 0xFFFF;
      }
      ghost var quad := raw[start..start + 4];
      assert quad[0] == raw[start] && quad[1] == raw[start + 1] && quad[2] == raw[start + 2] && quad[3] == raw[start + 3];
      return Ok(value);
    }

    method DecodeEscape(output: bytes) returns (r: Scan<bytes>)
      requires Valid()
      modifies this`position
      ensures var spec := ScanEscape(raw, old(position));
              && (spec.Ok? ==> r == Ok(output + spec.value.1) && position == spec.value.0 && Valid())
              && (spec.Err? ==> r == Err(spec.error))
    {
      hide ValidUtf8, CharLength, EncodeUtf8, QuadValue;
      var start := position;
      var escaped := Next();
      if escaped.None? {
        return Err(MalformedJson);
      }
      if IsShortEscape(escaped.value) {
        StepAscii(raw, start);
        return Ok(output + [ShortEscape(escaped.value)]);
      }
      if escaped.value != LOWER_U {
        return Err(MalformedJson);
      }
      StepAscii(raw, start);
      var first :- ReadHexQuad();
      if HighSurrogate(first) {
        var backslash := Next();
        if backslash != Some(BACKSLASH) {
          return Err(MalformedJson);
        }
        StepAscii(raw, start + 5);
        var u := Next();
        if u != Some(LOWER_U) {
          return Err(MalformedJson);
        }
        StepAscii(raw, start + 6);
        var second :- ReadHexQuad();
        if !LowSurrogate(second) {
          return Err(MalformedJson);
        }
        return Ok(output + EncodeUtf8(PairScalar(first, second)));
      }
      if LowSurrogate(first) {
        return Err(MalformedJson);
      }
      return Ok(output + EncodeUtf8(first));
    }

    /** One turn of the loop of `parse_string` behind its quote and length checks. */
    method ParseChar(decoded: bytes) returns (r: Scan<bytes>)
      requires Valid() && position < |raw|
      modifies this`position, this`totalEscapes
      ensures var spec := ScanChar(raw, limits, CharsScan(old(position), old(totalEscapes), decoded));
              && (spec.Ok? ==> r == Ok(spec.value.decoded) && position == spec.value.pos
                               && totalEscapes == spec.value.escapes && Valid())
              && (spec.Err? ==> r == Err(spec.error))
    {
      hide ValidUtf8, CharLength, ScanEscape;
      var byte := raw[position];
      if byte < 0x20 {
        return Err(MalformedJson);
      } else if byte == BACKSLASH {
        StepAscii(raw, position);
        position := position + 1;
        totalEscapes := totalEscapes + 1;
        if totalEscapes > limits.maxEscapeCount {
          return Err(InputLimitExceeded);
        }
        r := DecodeEscape(decoded);
      } else if byte <= 0x7f {
        StepAscii(raw, position);
        position := position + 1;
        return Ok(decoded + [byte]);
      } else {
        StepChar(raw, position);
        var length := CharLength(raw[position..]);
        r := Ok(decoded + raw[position..position + length]);
        position := position + length;
      }
    }

    method ParseString(key: bool) returns (r: Scan<bytes>)
      requires Valid()
      modifies this`position, this`totalEscapes, this`totalStringBytes
      ensures var spec := ScanString(raw, limits, old(State()), key);
              && (spec.Ok? ==> r == Ok(spec.value.1) && State() == spec.value.0 && Valid())
              && (spec.Err? ==> r == Err(spec.error))
    {
      hide ValidUtf8, CharLength, ScanChar;
      var _ :- RequireByte(QUOTE);
      var start := position;
      var decoded := [];
      var maximum := if key then limits.maxKeyLengthBytes else limits.maxStringLengthBytes;
      ghost var spec := ScanChars(raw, limits, start, CharsScan(start, totalEscapes, []), maximum);
      while true
        invariant Valid() && start <= position && totalStringBytes == old(totalStringBytes)
        invariant ScanChars(raw, limits, start, CharsScan(position, totalEscapes, decoded), maximum) == spec
        decreases |raw| - position
      {
        var byte := Peek();
        if byte.None? {
          return Err(MalformedJson);
        }
        if byte.value == QUOTE {
          StepAscii(raw, position);
          position := position + 1;
          break;
        }
        if position - start > maximum {
          return Err(InputLimitExceeded);
        }
        decoded :- ParseChar(decoded);
        if |decoded| > maximum {
          return Err(InputLimitExceeded);
        }
      }
      if position - (start + 1) > maximum {
        return Err(InputLimitExceeded);
      }
      totalStringBytes := totalStringBytes + |decoded|;
      if totalStringBytes > limits.maxTotalStringBytes {
        return Err(InputLimitExceeded);
      }
      return Ok(decoded);
    }

    method ParseValue(depth: nat) returns (r: Scan<()>)
      requires Valid()
      modifies this
      ensures Reached(ScanValue(raw, limits, old(State()), depth), r)
      decreases |raw| - position, 3
    {
      hide ValidUtf8, CharLength, ScanString, ScanNumber, ScanLiteral, ScanObject, ScanArray;
      var _ :- IncrementToken();
      SkipWhitespace();
      var b := Peek();
      if b.None? {
        return Err(MalformedJson);
      }
      if b.value == LBRACE {
        r := ParseObject(depth + 1);
      } else if b.value == LBRACKET {
        r := ParseArray(depth + 1);
      } else if b.value == QUOTE {
        var _ :- ParseString(false);
        r := Ok(());
      } else if b.value == 0x74 {
        r := ConsumeLiteral(True);
      } else if b.value == 0x66 {
        r := ConsumeLiteral(False);
      } else if b.value == 0x6e {
        r := ConsumeLiteral(Null);
      } else if b.value == MINUS || IsDigit(b.value) {
        r := ParseNumber();
      } else {
        r := Err(MalformedJson);
      }
    }

    /** The end of a turn of either container loop: the closing byte, or a comma and white space. */
    method ClosesOrContinues(close: byte) returns (r: Scan<bool>)
      requires Valid() && close <= 0x7F
      modifies this`position
      ensures var spec := ScanSeparator(raw, old(position), close);
              && (spec.Ok? ==> r == Ok(spec.value.Close?) && position == spec.value.pos && Valid())
              && (spec.Err? ==> r == Err(spec.error))
    {
      hide ValidUtf8, CharLength;
      SkipWhitespace();
      var closed := ConsumeIf(close);
      if closed {
        return Ok(true);
      }
      var _ :- RequireByte(COMMA);
      SkipWhitespace();
      return Ok(false);
    }

    method ParseColon() returns (r: Scan<()>)
      requires Valid()
      modifies this`position
      ensures Moved(ScanColon(raw, old(position)), r)
    {
      hide ValidUtf8, CharLength;
      SkipWhitespace();
      r := RequireByte(COLON);
    }

    method ParseArray(depth: nat) returns (r: Scan<()>)
      requires Valid() && Here(raw, position, LBRACKET)
      modifies this
      ensures Reached(ScanArray(raw, limits, old(State()), depth), r)
      decreases |raw| - position, 1
    {
      hide ValidUtf8, CharLength, ScanValue, ScanSeparator;
      var _ :- CheckDepth(depth);
      StepAscii(raw, position);
      position := position + 1;
      SkipWhitespace();
      var closed := ConsumeIf(RBRACKET);
      if closed {
        return Ok(());
      }
      ghost var spec := ScanArray(raw, limits, old(State()), depth);
      var count := 0;
      while true
        invariant Valid() && position > old(position)
        invariant ScanItems(raw, limits, State(), depth, count) == spec
        decreases |raw| - position
      {
        count := count + 1;
        if count > limits.maxArrayLength {
          return Err(InputLimitExceeded);
        }
        var _ :- ParseValue(depth);
        closed :- ClosesOrContinues(RBRACKET);
        if closed {
          return Ok(());
        }
      }
    }

    method ParseObject(depth: nat) returns (r: Scan<()>)
      requires Valid() && Here(raw, position, LBRACE)
      modifies this
      ensures Reached(ScanObject(raw, limits, old(State()), depth), r)
      decreases |raw| - position, 1
    {
      hide ValidUtf8, CharLength, ScanValue, ScanKey, ScanSeparator, ScanColon;
      var _ :- CheckDepth(depth);
      StepAscii(raw, position);
      position := position + 1;
      SkipWhitespace();
      var keys: set<bytes> := {};
      var closed := ConsumeIf(RBRACE);
      if closed {
        return Ok(());
      }
      ghost var spec := ScanObject(raw, limits, old(State()), depth);
      while true
        invariant Valid() && position > old(position)
        invariant ScanMembers(raw, limits, State(), depth, keys) == spec
        decreases |raw| - position
      {
        var key :- ParseKey(keys);
        keys := keys + {key};
        var _ :- ParseColon();
        var _ :- ParseValue(depth);
        closed :- ClosesOrContinues(RBRACE);
        if closed {
          return Ok(());
        }
      }
    }

    /** The key part of a turn of `parse_object`: canonical, new in this object, within budget. */
    method ParseKey(keys: set<bytes>) returns (r: Scan<bytes>)
      requires Valid()
      modifies this
      ensures var spec := ScanKey(raw, limits, old(State()), keys);
              && (spec.Ok? ==> r == Ok(spec.value.1) && State() == spec.value.0 && Valid())
              && (spec.Err? ==> r == Err(spec.error))
    {
      hide ValidUtf8, CharLength, ScanString, CoreKey;
      var b := Peek();
      if b != Some(QUOTE) {
        assert ScanString(raw, limits, State(), true) == Err(MalformedJson) by { NoString(raw, limits, State()); }
        return Err(MalformedJson);
      }
      var key :- ParseString(true);
      if !CoreKey(key) {
        return Err(NonCanonicalField);
      }
      if key in keys {
        return Err(DuplicateField);
      }
      totalKeys := totalKeys + 1;
      if |keys + {key}| > limits.maxKeysPerObject || totalKeys > limits.maxTotalObjectKeys {
        return Err(InputLimitExceeded);
      }
      return Ok(key);
    }
  }

  lemma NoString(raw: bytes, limits: Limits, c: Cursor)
    requires Boundary(raw, c.pos) && !Here(raw, c.pos, QUOTE)
    ensures ScanString(raw, limits, c, true) == Err(MalformedJson)
  {
  }

  /** `validate_bounded_json`: accepts exactly the JSON texts within the limits. */
  method ValidateBoundedJson(raw: bytes, limits: Limits) returns (r: Scan<()>)
    ensures r == Validate(raw, limits)
  {
    hide CharLength, ScanValue;
    if |raw| > limits.maxBodyBytes {
      return Err(BodyLimitExceeded);
    }
    if !ValidUtf8(raw) {
      return Err(InvalidUtf8);
    }
    var scanner := new Scanner(raw, limits);
    scanner.SkipWhitespace();
    var _ :- scanner.ParseValue(0);
    scanner.SkipWhitespace();
    if scanner.position != |raw| {
      return Err(MalformedJson);
    }
    return Ok(());
  }
}
