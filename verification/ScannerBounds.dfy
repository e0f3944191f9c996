/** Consequences for the bounded scanner: which error wins, what a parsed string is, and why the
    running counters cannot overflow before the text ends. */
module ScannerBounds {
  import opened Bytes
  import opened Utf8
  import opened JsonGrammar
  import opened Wrappers
  import opened ScannerSpec
  import opened ScannerStrings
  import opened ScannerTheorems

  /** The size limit is reported before bad UTF-8, and bad UTF-8 before anything the scanner finds;
      past those two checks neither error can come back, so the scanner's own UTF-8 checks are dead. */
  lemma ErrorPriority(raw: bytes, limits: Limits)
    ensures Validate(raw, limits) == Err(BodyLimitExceeded) <==> |raw| > limits.maxBodyBytes
    ensures Validate(raw, limits) == Err(InvalidUtf8) <==> |raw| <= limits.maxBodyBytes && !ValidUtf8(raw)
  {
    hide ValidUtf8, CharLength, ScanValue;
    if |raw| <= limits.maxBodyBytes && ValidUtf8(raw) {
      assert raw[0..] == raw;
    }
  }

  /** What `parse_string` returns is the declarative unescaping of the quoted text it read: valid
      UTF-8, no longer than that text, which is within the limit for a key or a string. */
  lemma ParsedStringIsText(raw: bytes, limits: Limits, c: Cursor, key: bool)
    requires Boundary(raw, c.pos) && UsageWithin(c.usage, limits) && ScanString(raw, limits, c, key).Ok?
    ensures var (end, decoded) := ScanString(raw, limits, c, key).value;
            && ValidUtf8(decoded) && |decoded| + 2 <= end.pos - c.pos <= RawLimit(limits, key) + 2
            && exists cs: Chars :: CharsOk(cs) && At(raw, c.pos, StringText(cs)) && decoded == Decoded(cs)
  {
    hide ValidUtf8, CharLength, ScanString, Decoded, CharsOk, CharsText, Escapes;
    var cs := SoundString(raw, limits, c, key);
    DecodedIsText(cs);
  }

  // ----- the running counters

  /** Each counter is at most the length of the text it was counted over. */
  predicate Under(u: Usage, n: int) {
    u.tokens <= n && u.keys <= n && u.stringBytes <= n && u.escapes <= n
  }

  lemma {:induction false} EscapesUnder(cs: Chars)
    requires CharsOk(cs)
    ensures Escapes(cs) <= |CharsText(cs)| && |Decoded(cs)| <= |CharsText(cs)|
  {
    hide ValidUtf8, CharLength;
    DecodedIsText(cs);
    if cs != [] {
      EscapesUnder(cs[1..]);
      CharTextLength(cs[0]);
    }
  }

  lemma ItemsTextLength(items: Items)
    ensures |ItemsText(items)| >= |ValueText(items.item)| + 1 + (if items.MoreItems? then |ItemsText(items.rest)| else 0)
  {
    hide ValueText;
    assert |ItemsBehind(items)| >= 1 + (if items.MoreItems? then |ItemsText(items.rest)| else 0);
    assert |ItemsTail(items)| == |ValueText(items.item)| + |ItemsBehind(items)|;
  }

  lemma MembersTextLength(ms: Members)
    ensures |MembersText(ms)| >= |CharsText(ms.key)| + |ValueText(ms.value)| + 4
                                 + (if ms.MoreMembers? then |MembersText(ms.rest)| else 0)
  {
    hide ValueText, CharsText;
    assert |MembersBehind(ms)| >= 1 + (if ms.MoreMembers? then |MembersText(ms.rest)| else 0);
    assert |MembersTail(ms)| >= |CharsText(ms.key)| + |ValueText(ms.value)| + |MembersBehind(ms)| + 3;
  }

  lemma NumberNotEmpty(n: Num)
    requires NumOk(n)
    ensures |NumText(n)| >= 1
  {
    hide FractionText, ExponentText, SignText;
  }

  /** A derivation costs no more tokens, keys, string bytes or escapes than it has bytes: a counter
      over a text of fewer than 2^64 bytes never overflows a 64-bit word. */
  lemma {:induction false} ValueUsageUnder(v: Value)
    requires ValueOk(v)
    ensures Under(ValueUsage(v), |ValueText(v)|)
    decreases v, 1
  {
    hide CharsOk, AllSpace, DistinctKeys, KeysOk, MemberKeys, CharsText, Decoded, Escapes, NumOk, NumText;
    hide ItemsOk, MembersOk, ItemsText, MembersText, ItemsUsage, MembersUsage;
    if v.Array? {
      ItemsUsageUnder(v.items);
    } else if v.Object? {
      MembersUsageUnder(v.members);
    } else if v.Number? {
      NumberUnder(v.num);
    } else if v.Str? {
      StringUnder(v.chars);
    } else if v.Literal? {
      LiteralUnder(v.word);
    } else {
      EmptyUnder(v);
    }
  }

  lemma LiteralUnder(w: Word)
    ensures Under(ValueUsage(Literal(w)), |ValueText(Literal(w))|)
  {
    hide WordText;
  }

  lemma EmptyTextLength(v: Value)
    requires v.EmptyArray? || v.EmptyObject?
    ensures |ValueText(v)| >= 1
  {
  }

  lemma EmptyUnder(v: Value)
    requires ValueOk(v) && (v.EmptyArray? || v.EmptyObject?)
    ensures Under(ValueUsage(v), |ValueText(v)|)
  {
    EmptyTextLength(v);
    hide ValueText, ValueOk, AllSpace;
  }

  lemma NumberUnder(n: Num)
    requires NumOk(n)
    ensures Under(ValueUsage(Number(n)), |ValueText(Number(n))|)
  {
    NumberNotEmpty(n);
    hide NumOk, NumText;
  }

  lemma StringUnder(cs: Chars)
    requires CharsOk(cs)
    ensures Under(ValueUsage(Str(cs)), |ValueText(Str(cs))|)
  {
    hide CharsOk, CharsText, Decoded, Escapes;
    EscapesUnder(cs);
    StringTextLength(cs);
    hide StringText;
  }

  lemma StringTextLength(cs: Chars)
    ensures |StringText(cs)| == |CharsText(cs)| + 2
  {
    hide CharsText;
  }

  lemma {:induction false} ItemsUsageUnder(items: Items)
    requires ItemsOk(items)
    ensures Under(ItemsUsage(items), |ItemsText(items)| - 1)
    decreases items, 0
  {
    hide AllSpace, ValueText, ValueUsage, ValueOk, ItemsText;
    ItemsTextLength(items);
    ValueUsageUnder(items.item);
    if items.MoreItems? { ItemsUsageUnder(items.rest); }
  }

  lemma {:induction false} MembersUsageUnder(ms: Members)
    requires MembersOk(ms)
    ensures Under(MembersUsage(ms), |MembersText(ms)| - 1)
    decreases ms, 0
  {
    hide AllSpace, ValueText, ValueUsage, ValueOk, CharsOk, CharsText, Decoded, Escapes, CoreKey, MembersText;
    MembersTextLength(ms);
    ValueUsageUnder(ms.value);
    EscapesUnder(ms.key);
    if ms.MoreMembers? { MembersUsageUnder(ms.rest); }
  }

  /** The four counters a run ends with are each at most the length of the text, whatever the limits. */
  lemma AcceptedCountersBounded(raw: bytes, limits: Limits)
    requires Validate(raw, limits).Ok?
    ensures var start := Cursor(SkipSpace(raw, 0), NOTHING);
            && Boundary(raw, start.pos) && ScanValue(raw, limits, start, 0).Ok?
            && Under(ScanValue(raw, limits, start, 0).value.usage, |raw|)
  {
    hide ScanValue, ValueOk, ValueFits, ValueUsage, ValueText, ValidUtf8, CharLength, SkipSpace;
    assert raw[0..] == raw;
    var start := Cursor(SkipSpace(raw, 0), NOTHING);
    var lead, v := SoundValue(raw, limits, start, 0);
    ValueUsageUnder(v);
  }
}
