/** The main results about the bounded scanner: it accepts exactly the JSON texts whose
    derivation tree is within the limits, and raising limits never loses an accepted text. */
module ScannerTheorems {
  import opened Bytes
  import opened Utf8
  import opened JsonGrammar
  import opened Wrappers
  import opened ScannerSpec
  import opened ScannerStrings

  // ----- white space and separators

  lemma {:induction false} SkipSpaceExact(raw: bytes, pos: nat, space: bytes)
    requires AllSpace(space) && At(raw, pos, space)
    requires pos + |space| == |raw| || !IsSpace(raw[pos + |space|])
    ensures SkipSpace(raw, pos) == pos + |space|
    decreases |space|
  {
    if space != [] {
      AtFirst(raw, pos, space);
      assert space == space[..1] + space[1..];
      AtConcat(raw, pos, space[..1], space[1..]);
      SkipSpaceExact(raw, pos + 1, space[1..]);
    }
  }

  lemma SoundSeparator(raw: bytes, pos: nat, close: byte) returns (after: bytes, lead: bytes)
    requires Boundary(raw, pos) && close <= 0x7F && ScanSeparator(raw, pos, close).Ok?
    ensures AllSpace(after) && AllSpace(lead)
    ensures var s := ScanSeparator(raw, pos, close).value;
            && (s.Close? ==> lead == [] && At(raw, pos, after + [close]) && s.pos == pos + |after| + 1)
            && (s.Next? ==> At(raw, pos, after + ([COMMA] + lead)) && s.pos == pos + |after| + 1 + |lead|)
  {
    hide ValidUtf8, CharLength;
    var p := SkipSpace(raw, pos);
    after := raw[pos..p];
    StepAscii(raw, p);
    if raw[p] == close {
      lead := [];
      AtConcat(raw, pos, after, [close]);
    } else {
      lead := raw[p + 1..SkipSpace(raw, p + 1)];
      AtConcat(raw, pos, after, [COMMA] + lead);
      AtConcat(raw, p, [COMMA], lead);
    }
  }

  lemma CompleteClose(raw: bytes, pos: nat, close: byte, after: bytes)
    requires Boundary(raw, pos) && (close == RBRACE || close == RBRACKET)
    requires AllSpace(after) && At(raw, pos, after + [close])
    ensures ScanSeparator(raw, pos, close) == Ok(Close(pos + |after| + 1))
  {
    hide ValidUtf8, CharLength;
    AtConcat(raw, pos, after, [close]);
    AtFirst(raw, pos + |after|, [close]);
    SkipSpaceExact(raw, pos, after);
    StepAscii(raw, pos + |after|);
  }

  lemma CompleteNext(raw: bytes, pos: nat, close: byte, after: bytes, lead: bytes)
    requires Boundary(raw, pos) && (close == RBRACE || close == RBRACKET)
    requires AllSpace(after) && AllSpace(lead) && At(raw, pos, after + ([COMMA] + lead))
    requires var end := pos + |after| + 1 + |lead|; end < |raw| && !IsSpace(raw[end])
    ensures ScanSeparator(raw, pos, close) == Ok(Next(pos + |after| + 1 + |lead|))
  {
    hide ValidUtf8, CharLength, SkipSpace, At, AllSpace;
    AtConcat(raw, pos, after, [COMMA] + lead);
    AtConcat(raw, pos + |after|, [COMMA], lead);
    AtFirst(raw, pos + |after|, [COMMA]);
    SkipSpaceExact(raw, pos, after);
    StepAscii(raw, pos + |after|);
    SkipSpaceExact(raw, pos + |after| + 1, lead);
  }

  /** A colon between white space and the value's own leading white space. */
  lemma CompleteColon(raw: bytes, pos: nat, gap: bytes)
    requires Boundary(raw, pos) && AllSpace(gap) && At(raw, pos, gap + [COLON])
    ensures ScanColon(raw, pos) == Ok(pos + |gap| + 1)
  {
    hide ValidUtf8, CharLength;
    AtConcat(raw, pos, gap, [COLON]);
    AtFirst(raw, pos + |gap|, [COLON]);
    SkipSpaceExact(raw, pos, gap);
    StepAscii(raw, pos + |gap|);
  }

  // ----- soundness

  function ItemsLead(lead: bytes, items: Items): Items {
    items.(lead := lead + items.lead)
  }

  function MembersLead(lead: bytes, ms: Members): Members {
    ms.(lead := lead + ms.lead)
  }

  /** White space in front of the first item changes the text and nothing else. */
  lemma ItemsLeadFacts(lead: bytes, items: Items, limits: Limits, depth: nat)
    requires AllSpace(lead) && ItemsOk(items)
    ensures var r := ItemsLead(lead, items);
            && ItemsOk(r) && ItemsText(r) == lead + ItemsText(items) && ItemsUsage(r) == ItemsUsage(items)
            && ItemsFit(r, limits, depth) == ItemsFit(items, limits, depth) && ItemCount(r) == ItemCount(items)
  {
    hide ValueText, ValueOk, ValueFits, ValueUsage;
    var r := ItemsLead(lead, items);
    assert ItemsBehind(r) == ItemsBehind(items);
    assert ItemsTail(r) == ItemsTail(items);
  }

  lemma MembersLeadFacts(lead: bytes, ms: Members, limits: Limits, depth: nat)
    requires AllSpace(lead) && KeysOk(ms) && MembersOk(ms)
    ensures var r := MembersLead(lead, ms);
            && KeysOk(r) && MembersOk(r) && MembersText(r) == lead + MembersText(ms)
            && MembersUsage(r) == MembersUsage(ms) && MembersFit(r, limits, depth) == MembersFit(ms, limits, depth)
            && MemberCount(r) == MemberCount(ms) && MemberKeys(r) == MemberKeys(ms)
  {
    hide ValueText, ValueOk, ValueFits, ValueUsage, StringText, StringUsage, CharsOk, CoreKey, Decoded;
    var r := MembersLead(lead, ms);
    assert MembersBehind(r) == MembersBehind(ms);
    assert MembersTail(r) == MembersTail(ms);
  }

  lemma SoundLiteral(raw: bytes, pos: nat, w: Word)
    requires Boundary(raw, pos) && ScanLiteral(raw, pos, w).Ok?
    ensures At(raw, pos, ValueText(Literal(w))) && ScanLiteral(raw, pos, w) == Ok(pos + |ValueText(Literal(w))|)
  {
  }

  lemma SoundValue(raw: bytes, limits: Limits, c: Cursor, depth: nat) returns (lead: bytes, v: Value)
    requires Boundary(raw, c.pos) && UsageWithin(c.usage, limits) && ScanValue(raw, limits, c, depth).Ok?
    ensures AllSpace(lead) && ValueOk(v) && ValueFits(v, limits, depth) && At(raw, c.pos, lead + ValueText(v))
    ensures ScanValue(raw, limits, c, depth).value
         == Cursor(c.pos + |lead| + |ValueText(v)|, Plus(c.usage, ValueUsage(v)))
    ensures UsageWithin(Plus(c.usage, ValueUsage(v)), limits)
    decreases |raw| - c.pos, 3
  {
    hide ValidUtf8, CharLength, ScanBody, ValueText, ValueOk, ValueFits, BodyUsage, SkipSpace;
    var pos := SkipSpace(raw, c.pos);
    lead := raw[c.pos..pos];
    v := SoundBody(raw, limits, Cursor(pos, Plus(c.usage, ONE_TOKEN)), depth);
    AtConcat(raw, c.pos, lead, ValueText(v));
  }

  lemma SoundBody(raw: bytes, limits: Limits, c: Cursor, depth: nat) returns (v: Value)
    requires Boundary(raw, c.pos) && UsageWithin(c.usage, limits) && ScanBody(raw, limits, c, depth).Ok?
    ensures ValueOk(v) && ValueFits(v, limits, depth) && At(raw, c.pos, ValueText(v))
    ensures ScanBody(raw, limits, c, depth).value == Cursor(c.pos + |ValueText(v)|, Plus(c.usage, BodyUsage(v)))
    ensures UsageWithin(Plus(c.usage, BodyUsage(v)), limits)
    decreases |raw| - c.pos, 2
  {
    hide ValidUtf8, CharLength, ScanString, ScanNumber, ScanLiteral, ScanObject, ScanArray, At, ItemsText, MembersText,
         ItemsOk, MembersOk, ItemsFit, MembersFit, ItemsUsage, MembersUsage,
         StringText, CharsOk, WordText, NumText, NumOk, StringUsage;
    var b := raw[c.pos];
    if b == LBRACE {
      v := SoundObject(raw, limits, c, depth);
    } else if b == LBRACKET {
      v := SoundArray(raw, limits, c, depth);
    } else if b == QUOTE {
      var cs := SoundString(raw, limits, c, false);
      v := Str(cs);
    } else if b == 0x74 || b == 0x66 || b == 0x6e {
      v := Literal(if b == 0x74 then True else if b == 0x66 then False else Null);
      SoundLiteral(raw, c.pos, v.word);
    } else {
      var n := SoundNumber(raw, limits, c.pos);
      v := Number(n);
    }
  }

  lemma AtEmptyContainer(raw: bytes, pos: nat, end: nat, open: byte, close: byte)
    requires Here(raw, pos, open) && pos < end && Here(raw, end, close)
    ensures At(raw, pos, [open] + raw[pos + 1..end] + [close])
  {
  }

  lemma AtOpened(raw: bytes, pos: nat, end: nat, open: byte, rest: bytes)
    requires Here(raw, pos, open) && pos < end <= |raw| && At(raw, end, rest)
    ensures At(raw, pos, [open] + (raw[pos + 1..end] + rest))
  {
    AtConcat(raw, pos, [open], raw[pos + 1..end] + rest);
    AtConcat(raw, pos + 1, raw[pos + 1..end], rest);
  }

  lemma SoundArray(raw: bytes, limits: Limits, c: Cursor, depth: nat) returns (v: Value)
    requires Boundary(raw, c.pos) && Here(raw, c.pos, LBRACKET) && UsageWithin(c.usage, limits)
    requires ScanArray(raw, limits, c, depth + 1).Ok?
    ensures (v.EmptyArray? || v.Array?) && ValueOk(v) && ValueFits(v, limits, depth) && At(raw, c.pos, ValueText(v))
    ensures ScanArray(raw, limits, c, depth + 1).value == Cursor(c.pos + |ValueText(v)|, Plus(c.usage, BodyUsage(v)))
    ensures UsageWithin(Plus(c.usage, BodyUsage(v)), limits)
    decreases |raw| - c.pos, 1
  {
    hide ValidUtf8, CharLength, ScanItems, ItemsText, ItemsOk, ItemsFit, ItemsUsage, ItemCount, ItemsLead, At, SkipSpace;
    StepAscii(raw, c.pos);
    var pos := SkipSpace(raw, c.pos + 1);
    var space := raw[c.pos + 1..pos];
    if Here(raw, pos, RBRACKET) {
      v := EmptyArray(space);
      AtEmptyContainer(raw, c.pos, pos, LBRACKET, RBRACKET);
    } else {
      var items := SoundItems(raw, limits, Cursor(pos, c.usage), depth + 1, 0);
      ItemsLeadFacts(space, items, limits, depth + 1);
      v := Array(ItemsLead(space, items));
      AtOpened(raw, c.pos, pos, LBRACKET, ItemsText(items));
    }
  }

  lemma SoundItems(raw: bytes, limits: Limits, c: Cursor, depth: nat, count: nat) returns (items: Items)
    requires Boundary(raw, c.pos) && UsageWithin(c.usage, limits) && ScanItems(raw, limits, c, depth, count).Ok?
    ensures ItemsOk(items) && ItemsFit(items, limits, depth) && At(raw, c.pos, ItemsText(items))
    ensures ScanItems(raw, limits, c, depth, count).value
         == Cursor(c.pos + |ItemsText(items)|, Plus(c.usage, ItemsUsage(items)))
    ensures UsageWithin(Plus(c.usage, ItemsUsage(items)), limits)
    ensures count + ItemCount(items) <= limits.maxArrayLength
    decreases |raw| - c.pos, 4
  {
    hide ValidUtf8, CharLength, ScanValue, ScanSeparator, ValueText, ValueOk, ValueFits, ValueUsage, ItemsLead, At;
    var lead, item := SoundValue(raw, limits, c, depth);
    var v := ScanValue(raw, limits, c, depth).value;
    var after, next := SoundSeparator(raw, v.pos, RBRACKET);
    var s := ScanSeparator(raw, v.pos, RBRACKET).value;
    if s.Close? {
      items := LastItem(lead, item, after);
      assert ItemsBehind(items) == after + [RBRACKET];
      assert ItemsText(items) == (lead + ValueText(item)) + (after + [RBRACKET]);
      AtConcat(raw, c.pos, lead + ValueText(item), after + [RBRACKET]);
    } else {
      var rest := SoundItems(raw, limits, Cursor(s.pos, v.usage), depth, count + 1);
      ItemsLeadFacts(next, rest, limits, depth);
      items := MoreItems(lead, item, after, ItemsLead(next, rest));
      var behind := (after + ([COMMA] + next)) + ItemsText(rest);
      assert ItemsBehind(items) == behind;
      assert ItemsText(items) == (lead + ValueText(item)) + behind;
      AtConcat(raw, c.pos, lead + ValueText(item), behind);
      AtConcat(raw, v.pos, after + ([COMMA] + next), ItemsText(rest));
    }
  }

  lemma SoundObject(raw: bytes, limits: Limits, c: Cursor, depth: nat) returns (v: Value)
    requires Boundary(raw, c.pos) && Here(raw, c.pos, LBRACE) && UsageWithin(c.usage, limits)
    requires ScanObject(raw, limits, c, depth + 1).Ok?
    ensures (v.EmptyObject? || v.Object?) && ValueOk(v) && ValueFits(v, limits, depth) && At(raw, c.pos, ValueText(v))
    ensures ScanObject(raw, limits, c, depth + 1).value == Cursor(c.pos + |ValueText(v)|, Plus(c.usage, BodyUsage(v)))
    ensures UsageWithin(Plus(c.usage, BodyUsage(v)), limits)
    decreases |raw| - c.pos, 1
  {
    hide ValidUtf8, CharLength, ScanMembers, MembersText, KeysOk, MembersOk, MembersFit, MembersUsage, MemberCount,
         MemberKeys, MembersLead, DistinctKeys, At, SkipSpace;
    StepAscii(raw, c.pos);
    var pos := SkipSpace(raw, c.pos + 1);
    var space := raw[c.pos + 1..pos];
    if Here(raw, pos, RBRACE) {
      v := EmptyObject(space);
      AtEmptyContainer(raw, c.pos, pos, LBRACE, RBRACE);
    } else {
      var ms := SoundMembers(raw, limits, Cursor(pos, c.usage), depth + 1, {});
      MembersLeadFacts(space, ms, limits, depth + 1);
      v := Object(MembersLead(space, ms));
      AtOpened(raw, c.pos, pos, LBRACE, MembersText(ms));
    }
  }

  lemma SoundKey(raw: bytes, limits: Limits, c: Cursor, keys: set<bytes>) returns (cs: Chars)
    requires Boundary(raw, c.pos) && UsageWithin(c.usage, limits) && ScanKey(raw, limits, c, keys).Ok?
    ensures CharsOk(cs) && At(raw, c.pos, StringText(cs)) && |CharsText(cs)| <= limits.maxKeyLengthBytes
    ensures CoreKey(Decoded(cs)) && Decoded(cs) !in keys && |keys| + 1 <= limits.maxKeysPerObject
    ensures ScanKey(raw, limits, c, keys).value
         == (Cursor(c.pos + |StringText(cs)|, Plus(Plus(c.usage, StringUsage(cs)), Usage(0, 1, 0, 0))), Decoded(cs))
    ensures UsageWithin(Plus(Plus(c.usage, StringUsage(cs)), Usage(0, 1, 0, 0)), limits)
  {
    hide ValidUtf8, CharLength, ScanString, StringText, CharsOk, CoreKey;
    cs := SoundString(raw, limits, c, true);
  }

  lemma SoundColon(raw: bytes, pos: nat) returns (gap: bytes)
    requires Boundary(raw, pos) && ScanColon(raw, pos).Ok?
    ensures AllSpace(gap) && At(raw, pos, gap + [COLON]) && ScanColon(raw, pos) == Ok(pos + |gap| + 1)
  {
    hide ValidUtf8, CharLength;
    gap := raw[pos..SkipSpace(raw, pos)];
    AtConcat(raw, pos, gap, [COLON]);
  }

  /** What one member adds to those behind it. */
  lemma MemberFacts(ms: Members, limits: Limits, depth: nat)
    requires AllSpace(ms.lead) && AllSpace(ms.gap) && AllSpace(ms.pad) && AllSpace(ms.after)
    requires CharsOk(ms.key) && CoreKey(Decoded(ms.key)) && |CharsText(ms.key)| <= limits.maxKeyLengthBytes
    requires ValueOk(ms.value) && ValueFits(ms.value, limits, depth)
    requires ms.MoreMembers? ==> KeysOk(ms.rest) && MembersOk(ms.rest) && MembersFit(ms.rest, limits, depth)
    ensures KeysOk(ms) && MembersOk(ms) && MembersFit(ms, limits, depth)
    ensures MemberKeys(ms) == [Decoded(ms.key)] + if ms.MoreMembers? then MemberKeys(ms.rest) else []
    ensures MemberCount(ms) == 1 + if ms.MoreMembers? then MemberCount(ms.rest) else 0
    ensures MembersUsage(ms) == Plus(Plus(Plus(StringUsage(ms.key), Usage(0, 1, 0, 0)), ValueUsage(ms.value)),
                                     if ms.MoreMembers? then MembersUsage(ms.rest) else NOTHING)
  {
    hide AllSpace, ValueText, ValueOk, ValueFits, ValueUsage, StringUsage, CharsOk, CoreKey, Decoded;
  }

  lemma SoundMembers(raw: bytes, limits: Limits, c: Cursor, depth: nat, keys: set<bytes>) returns (ms: Members)
    requires Boundary(raw, c.pos) && UsageWithin(c.usage, limits) && ScanMembers(raw, limits, c, depth, keys).Ok?
    ensures KeysOk(ms) && MembersOk(ms) && MembersFit(ms, limits, depth) && At(raw, c.pos, MembersText(ms))
    ensures ScanMembers(raw, limits, c, depth, keys).value
         == Cursor(c.pos + |MembersText(ms)|, Plus(c.usage, MembersUsage(ms)))
    ensures UsageWithin(Plus(c.usage, MembersUsage(ms)), limits)
    ensures |keys| + MemberCount(ms) <= limits.maxKeysPerObject
    ensures DistinctKeys(MemberKeys(ms)) && forall k :: k in MemberKeys(ms) ==> k !in keys
    decreases |raw| - c.pos, 4
  {
    hide ValidUtf8, CharLength, ScanValue, ScanSeparator, ScanKey, ScanColon, ValueText, ValueOk, ValueFits,
         ValueUsage, StringText, StringUsage, CharsOk, CoreKey, Decoded, At, MembersText, MembersLead, MembersTail,
         KeysOk, MembersOk, MembersFit, MemberKeys, MemberCount, MembersUsage;
    var key := SoundKey(raw, limits, c, keys);
    var k := ScanKey(raw, limits, c, keys).value;
    var gap := SoundColon(raw, k.0.pos);
    var colon := ScanColon(raw, k.0.pos).value;
    var pad, value := SoundValue(raw, limits, Cursor(colon, k.0.usage), depth);
    var v := ScanValue(raw, limits, Cursor(colon, k.0.usage), depth).value;
    var after, next := SoundSeparator(raw, v.pos, RBRACE);
    var s := ScanSeparator(raw, v.pos, RBRACE).value;
    if s.Close? {
      ms := LastMember([], key, gap, pad, value, after);
      MemberFacts(ms, limits, depth);
      assert MembersBehind(ms) == after + [RBRACE];
      AtMember(raw, c.pos, ms);
    } else {
      var rest := SoundMembers(raw, limits, Cursor(s.pos, v.usage), depth, keys + {k.1});
      MembersLeadFacts(next, rest, limits, depth);
      ms := MoreMembers([], key, gap, pad, value, after, MembersLead(next, rest));
      MemberFacts(ms, limits, depth);
      var behind := (after + ([COMMA] + next)) + MembersText(rest);
      assert MembersBehind(ms) == behind;
      AtConcat(raw, v.pos, after + ([COMMA] + next), MembersText(rest));
      AtMember(raw, c.pos, ms);
      assert MemberKeys(ms) == [k.1] + MemberKeys(rest);
      KeysPrepend(k.1, MemberKeys(rest), keys);
    }
  }

  lemma KeysPrepend(k: bytes, rest: seq<bytes>, keys: set<bytes>)
    requires k !in keys && DistinctKeys(rest) && forall x :: x in rest ==> x !in keys + {k}
    ensures DistinctKeys([k] + rest) && forall x :: x in [k] + rest ==> x !in keys
    ensures |keys + {k}| == |keys| + 1
  {
  }

  /** The four parts of a member, in place. */
  lemma AtMember(raw: bytes, pos: nat, ms: Members)
    ensures var colon := pos + |StringText(ms.key)|;
            var lead := colon + |ms.gap| + 1;
            var end := lead + |ms.pad| + |ValueText(ms.value)|;
            && (At(raw, pos, MembersTail(ms)) <==>
                && At(raw, pos, StringText(ms.key)) && At(raw, colon, ms.gap + [COLON])
                && At(raw, lead, ms.pad + ValueText(ms.value)) && At(raw, end, MembersBehind(ms)))
            && pos + |MembersTail(ms)| == end + |MembersBehind(ms)|
    ensures ms.lead == [] ==> MembersText(ms) == MembersTail(ms)
  {
    hide StringText, ValueText, MembersBehind, At;
    var value, behind := ms.pad + ValueText(ms.value), MembersBehind(ms);
    AtConcat(raw, pos, StringText(ms.key), (ms.gap + [COLON]) + (value + behind));
    AtConcat(raw, pos + |StringText(ms.key)|, ms.gap + [COLON], value + behind);
    AtConcat(raw, pos + |StringText(ms.key)| + |ms.gap| + 1, value, behind);
  }

  // ----- completeness

  /** What a value can start with. */
  predicate HeadOk(v: Value, b: byte) {
    match v
    case Literal(w) => b == WordText(w)[0]
    case Number(_) => b == MINUS || IsDigit(b)
    case Str(_) => b == QUOTE
    case EmptyArray(_) => b == LBRACKET
    case Array(_) => b == LBRACKET
    case EmptyObject(_) => b == LBRACE
    case Object(_) => b == LBRACE
  }

  lemma ValueHead(v: Value)
    requires ValueOk(v)
    ensures ValueText(v) != [] && HeadOk(v, ValueText(v)[0])
  {
    hide CharsText, ItemsText, MembersText, ItemsOk, MembersOk, KeysOk, ExponentOk;
    if v.Number? {
      var n := v.num;
      assert NumText(n) == (SignText(n) + n.whole) + (FractionText(n.fraction) + ExponentText(n.exponent));
    }
  }

  lemma CompleteValue(raw: bytes, limits: Limits, c: Cursor, depth: nat, lead: bytes, v: Value)
    requires Boundary(raw, c.pos) && AllSpace(lead) && ValueOk(v) && ValueFits(v, limits, depth)
    requires At(raw, c.pos, lead + ValueText(v)) && Follow(raw, c.pos + |lead| + |ValueText(v)|)
    requires UsageWithin(Plus(c.usage, ValueUsage(v)), limits)
    ensures ScanValue(raw, limits, c, depth)
         == Ok(Cursor(c.pos + |lead| + |ValueText(v)|, Plus(c.usage, ValueUsage(v))))
    decreases v, 3
  {
    hide ValidUtf8, CharLength, ScanBody, ValueText, ValueOk, ValueFits, BodyUsage, At, SkipSpace, AllSpace;
    AtConcat(raw, c.pos, lead, ValueText(v));
    ValueHead(v);
    AtFirst(raw, c.pos + |lead|, ValueText(v));
    SkipSpaceExact(raw, c.pos, lead);
    CompleteBody(raw, limits, Cursor(c.pos + |lead|, Plus(c.usage, ONE_TOKEN)), depth, v);
  }

  lemma CompleteBody(raw: bytes, limits: Limits, c: Cursor, depth: nat, v: Value)
    requires Boundary(raw, c.pos) && ValueOk(v) && ValueFits(v, limits, depth)
    requires At(raw, c.pos, ValueText(v)) && Follow(raw, c.pos + |ValueText(v)|)
    requires UsageWithin(Plus(c.usage, BodyUsage(v)), limits)
    ensures ScanBody(raw, limits, c, depth) == Ok(Cursor(c.pos + |ValueText(v)|, Plus(c.usage, BodyUsage(v))))
    decreases v, 2
  {
    hide ValidUtf8, CharLength, ScanString, ScanNumber, ScanLiteral, ScanObject, ScanArray, At, ItemsText, MembersText,
         ItemsOk, MembersOk, ItemsFit, MembersFit, ItemsUsage, MembersUsage,
         StringText, CharsOk, NumText, NumOk, StringUsage;
    ValueHead(v);
    AtFirst(raw, c.pos, ValueText(v));
    match v {
      case Literal(w) => CompleteLiteral(raw, c.pos, w);
      case Number(n) => CompleteNumber(raw, limits, c.pos, n);
      case Str(cs) => CompleteString(raw, limits, c, false, cs);
      case EmptyArray(_) => CompleteArray(raw, limits, c, depth, v);
      case Array(_) => CompleteArray(raw, limits, c, depth, v);
      case EmptyObject(_) => CompleteObject(raw, limits, c, depth, v);
      case Object(_) => CompleteObject(raw, limits, c, depth, v);
    }
  }

  lemma CompleteLiteral(raw: bytes, pos: nat, w: Word)
    requires Boundary(raw, pos) && At(raw, pos, WordText(w))
    ensures ScanLiteral(raw, pos, w) == Ok(pos + |WordText(w)|)
  {
    hide ValidUtf8, CharLength;
  }

  lemma CompleteArray(raw: bytes, limits: Limits, c: Cursor, depth: nat, v: Value)
    requires (v.EmptyArray? || v.Array?) && ValueOk(v) && ValueFits(v, limits, depth)
    requires Boundary(raw, c.pos) && Here(raw, c.pos, LBRACKET) && At(raw, c.pos, ValueText(v))
    requires UsageWithin(Plus(c.usage, BodyUsage(v)), limits)
    ensures ScanArray(raw, limits, c, depth + 1) == Ok(Cursor(c.pos + |ValueText(v)|, Plus(c.usage, BodyUsage(v))))
    decreases v, 1
  {
    hide ValidUtf8, CharLength, ScanItems, ItemsText, ItemsTail, ItemsOk, ItemsFit, ItemsUsage, At;
    StepAscii(raw, c.pos);
    if v.EmptyArray? {
      assert ValueText(v) == [LBRACKET] + (v.space + [RBRACKET]);
      AtConcat(raw, c.pos, [LBRACKET], v.space + [RBRACKET]);
      AtConcat(raw, c.pos + 1, v.space, [RBRACKET]);
      AtFirst(raw, c.pos + 1 + |v.space|, [RBRACKET]);
      SkipSpaceExact(raw, c.pos + 1, v.space);
    } else {
      var items := v.items;
      AtConcat(raw, c.pos, [LBRACKET], ItemsText(items));
      ItemsHead(raw, c.pos + 1, items);
      CompleteItems(raw, limits, Cursor(c.pos + 1 + |items.lead|, c.usage), depth + 1, 0, items);
    }
  }

  lemma ItemsHead(raw: bytes, pos: nat, items: Items)
    requires ItemsOk(items) && At(raw, pos, ItemsText(items))
    ensures SkipSpace(raw, pos) == pos + |items.lead| < |raw|
    ensures !Here(raw, pos + |items.lead|, RBRACKET) && !IsSpace(raw[pos + |items.lead|])
    ensures At(raw, pos, items.lead) && At(raw, pos + |items.lead|, ItemsTail(items))
    ensures ItemsText(items) == items.lead + ItemsTail(items)
  {
    hide ValueText, At, ValueOk, ItemsBehind;
    AtConcat(raw, pos, items.lead, ItemsTail(items));
    ValueHead(items.item);
    AtFirst(raw, pos + |items.lead|, ItemsTail(items));
    SkipSpaceExact(raw, pos, items.lead);
  }

  lemma CompleteItems(raw: bytes, limits: Limits, c: Cursor, depth: nat, count: nat, items: Items)
    requires Boundary(raw, c.pos) && ItemsOk(items) && ItemsFit(items, limits, depth)
    requires At(raw, c.pos, ItemsTail(items)) && count + ItemCount(items) <= limits.maxArrayLength
    requires UsageWithin(Plus(c.usage, ItemsUsage(items)), limits)
    ensures ScanItems(raw, limits, c, depth, count)
         == Ok(Cursor(c.pos + |ItemsTail(items)|, Plus(c.usage, ItemsUsage(items))))
    decreases items, 4
  {
    hide ValidUtf8, CharLength, ScanValue, ScanSeparator, ValueText, ValueOk, ValueFits, ValueUsage, At, ItemsText;
    var item, after := items.item, items.after;
    var end := c.pos + |ValueText(item)|;
    AtConcat(raw, c.pos, ValueText(item), ItemsBehind(items));
    AtFirst(raw, end, ItemsBehind(items));
    assert [] + ValueText(item) == ValueText(item);
    CompleteValue(raw, limits, c, depth, [], item);
    if items.LastItem? {
      CompleteClose(raw, end, RBRACKET, after);
    } else {
      var rest := items.rest;
      CompleteMoreItems(raw, end, items);
      var next := Cursor(end + |after| + 1 + |rest.lead|, Plus(c.usage, ValueUsage(item)));
      CompleteItems(raw, limits, next, depth, count + 1, rest);
    }
  }

  lemma CompleteMoreItems(raw: bytes, end: nat, items: Items)
    requires items.MoreItems? && ItemsOk(items) && Boundary(raw, end) && At(raw, end, ItemsBehind(items))
    ensures ScanSeparator(raw, end, RBRACKET) == Ok(Next(end + |items.after| + 1 + |items.rest.lead|))
    ensures At(raw, end + |items.after| + 1 + |items.rest.lead|, ItemsTail(items.rest))
    ensures |ItemsBehind(items)| == |items.after| + 1 + |items.rest.lead| + |ItemsTail(items.rest)|
  {
    hide ValidUtf8, CharLength, ScanSeparator, ItemsTail, ItemsText, ValueOk, At;
    var rest, after := items.rest, items.after;
    assert ItemsBehind(items) == (after + [COMMA]) + ItemsText(rest);
    AtConcat(raw, end, after + [COMMA], ItemsText(rest));
    ItemsHead(raw, end + |after| + 1, rest);
    AtConcat(raw, end, after + [COMMA], rest.lead);
    assert after + ([COMMA] + rest.lead) == (after + [COMMA]) + rest.lead;
    CompleteNext(raw, end, RBRACKET, after, rest.lead);
  }

  lemma CompleteObject(raw: bytes, limits: Limits, c: Cursor, depth: nat, v: Value)
    requires (v.EmptyObject? || v.Object?) && ValueOk(v) && ValueFits(v, limits, depth)
    requires Boundary(raw, c.pos) && Here(raw, c.pos, LBRACE) && At(raw, c.pos, ValueText(v))
    requires UsageWithin(Plus(c.usage, BodyUsage(v)), limits)
    ensures ScanObject(raw, limits, c, depth + 1) == Ok(Cursor(c.pos + |ValueText(v)|, Plus(c.usage, BodyUsage(v))))
    decreases v, 1
  {
    hide ValidUtf8, CharLength, ScanMembers, MembersText, MembersTail, KeysOk, MembersOk, MembersFit, MembersUsage,
         MemberKeys, DistinctKeys, At;
    StepAscii(raw, c.pos);
    if v.EmptyObject? {
      assert ValueText(v) == [LBRACE] + (v.space + [RBRACE]);
      AtConcat(raw, c.pos, [LBRACE], v.space + [RBRACE]);
      AtConcat(raw, c.pos + 1, v.space, [RBRACE]);
      AtFirst(raw, c.pos + 1 + |v.space|, [RBRACE]);
      SkipSpaceExact(raw, c.pos + 1, v.space);
    } else {
      var ms := v.members;
      AtConcat(raw, c.pos, [LBRACE], MembersText(ms));
      MembersHead(raw, c.pos + 1, ms);
      CompleteMembers(raw, limits, Cursor(c.pos + 1 + |ms.lead|, c.usage), depth + 1, {}, ms);
    }
  }

  lemma MembersHead(raw: bytes, pos: nat, ms: Members)
    requires MembersOk(ms) && At(raw, pos, MembersText(ms))
    ensures SkipSpace(raw, pos) == pos + |ms.lead| < |raw|
    ensures !Here(raw, pos + |ms.lead|, RBRACE) && !IsSpace(raw[pos + |ms.lead|])
    ensures At(raw, pos, ms.lead) && At(raw, pos + |ms.lead|, MembersTail(ms))
    ensures MembersText(ms) == ms.lead + MembersTail(ms)
  {
    hide ValueText, CoreKey, Decoded, CharsText, CharsOk, MembersBehind, ValueOk, At;
    AtConcat(raw, pos, ms.lead, MembersTail(ms));
    AtFirst(raw, pos + |ms.lead|, MembersTail(ms));
    SkipSpaceExact(raw, pos, ms.lead);
  }

  lemma CompleteKey(raw: bytes, limits: Limits, c: Cursor, keys: set<bytes>, cs: Chars)
    requires Boundary(raw, c.pos) && CharsOk(cs) && At(raw, c.pos, StringText(cs))
    requires |CharsText(cs)| <= limits.maxKeyLengthBytes && CoreKey(Decoded(cs)) && Decoded(cs) !in keys
    requires |keys| + 1 <= limits.maxKeysPerObject
    requires UsageWithin(Plus(Plus(c.usage, StringUsage(cs)), Usage(0, 1, 0, 0)), limits)
    ensures ScanKey(raw, limits, c, keys)
         == Ok((Cursor(c.pos + |StringText(cs)|, Plus(Plus(c.usage, StringUsage(cs)), Usage(0, 1, 0, 0))), Decoded(cs)))
  {
    hide ValidUtf8, CharLength, ScanString, StringText, CharsOk, CoreKey;
    CompleteString(raw, limits, c, true, cs);
  }

  /** Key, colon and value of a member were read, up to the given cursors. */
  predicate MemberScanned(raw: bytes, limits: Limits, c: Cursor, depth: nat, keys: set<bytes>, k: (Cursor, bytes),
                          colon: nat, v: Cursor) {
    && Boundary(raw, c.pos) && ScanKey(raw, limits, c, keys) == Ok(k) && ScanColon(raw, k.0.pos) == Ok(colon)
    && ScanValue(raw, limits, Cursor(colon, k.0.usage), depth) == Ok(v)
  }

  lemma MemberScannedEnds(raw: bytes, limits: Limits, c: Cursor, depth: nat, keys: set<bytes>, k: (Cursor, bytes),
                          colon: nat, v: Cursor)
    requires MemberScanned(raw, limits, c, depth, keys, k, colon, v)
    ensures Boundary(raw, v.pos) && c.pos < v.pos
  {
    hide ValidUtf8, CharLength, ScanValue, ScanKey, ScanColon;
  }

  lemma MembersStep(raw: bytes, limits: Limits, c: Cursor, depth: nat, keys: set<bytes>,
                    k: (Cursor, bytes), colon: nat, v: Cursor, s: Separator)
    requires MemberScanned(raw, limits, c, depth, keys, k, colon, v)
    requires Boundary(raw, v.pos) && ScanSeparator(raw, v.pos, RBRACE) == Ok(s)
    ensures ScanMembers(raw, limits, c, depth, keys)
         == if s.Close? then Ok(Cursor(s.pos, v.usage))
            else ScanMembers(raw, limits, Cursor(s.pos, v.usage), depth, keys + {k.1})
  {
    hide ValidUtf8, CharLength, ScanValue, ScanSeparator, ScanKey, ScanColon;
  }

  function AfterKey(c: Cursor, ms: Members): Cursor
    requires CharsOk(ms.key)
  {
    Cursor(c.pos + |StringText(ms.key)|, Plus(Plus(c.usage, StringUsage(ms.key)), Usage(0, 1, 0, 0)))
  }

  function AfterValue(c: Cursor, ms: Members): Cursor
    requires MembersOk(ms)
  {
    Cursor(c.pos + |StringText(ms.key)| + |ms.gap| + 1 + |ms.pad| + |ValueText(ms.value)|,
           Plus(AfterKey(c, ms).usage, ValueUsage(ms.value)))
  }

  /** The first member of a list: key, colon and value. */
  lemma CompleteMember(raw: bytes, limits: Limits, c: Cursor, depth: nat, keys: set<bytes>, ms: Members)
    requires Boundary(raw, c.pos) && MembersOk(ms) && ValueFits(ms.value, limits, depth)
    requires |CharsText(ms.key)| <= limits.maxKeyLengthBytes && |keys| + 1 <= limits.maxKeysPerObject
    requires At(raw, c.pos, MembersTail(ms)) && Decoded(ms.key) !in keys
    requires UsageWithin(AfterValue(c, ms).usage, limits)
    ensures MemberScanned(raw, limits, c, depth, keys, (AfterKey(c, ms), Decoded(ms.key)),
                          AfterKey(c, ms).pos + |ms.gap| + 1, AfterValue(c, ms))
    ensures At(raw, AfterValue(c, ms).pos, MembersBehind(ms))
    ensures c.pos + |MembersTail(ms)| == AfterValue(c, ms).pos + |MembersBehind(ms)|
    decreases ms, 3
  {
    hide ValidUtf8, CharLength, ScanValue, ScanKey, ScanColon, ValueText, ValueOk, ValueFits,
         ValueUsage, StringText, StringUsage, CharsOk, CoreKey, Decoded, At, MembersTail, MembersBehind, SkipSpace, Follow;
    var key := AfterKey(c, ms);
    AtMember(raw, c.pos, ms);
    BehindFollows(raw, AfterValue(c, ms).pos, ms);
    CompleteKey(raw, limits, c, keys, ms.key);
    CompleteColon(raw, key.pos, ms.gap);
    CompleteValue(raw, limits, Cursor(key.pos + |ms.gap| + 1, key.usage), depth, ms.pad, ms.value);
  }

  /** The usage behind the first value lies within what the whole list uses. */
  lemma MembersUsageSplit(limits: Limits, c: Cursor, ms: Members)
    requires MembersOk(ms) && UsageWithin(Plus(c.usage, MembersUsage(ms)), limits)
    ensures UsageWithin(AfterValue(c, ms).usage, limits)
    ensures Plus(c.usage, MembersUsage(ms))
         == (if ms.MoreMembers? then Plus(AfterValue(c, ms).usage, MembersUsage(ms.rest)) else AfterValue(c, ms).usage)
  {
    hide ValueUsage, StringUsage, ValueOk, ValueText, StringText, CharsOk, CoreKey, Decoded;
  }

  lemma CompleteMembers(raw: bytes, limits: Limits, c: Cursor, depth: nat, keys: set<bytes>, ms: Members)
    requires Boundary(raw, c.pos) && KeysOk(ms) && MembersOk(ms) && MembersFit(ms, limits, depth)
    requires At(raw, c.pos, MembersTail(ms)) && |keys| + MemberCount(ms) <= limits.maxKeysPerObject
    requires DistinctKeys(MemberKeys(ms)) && forall k :: k in MemberKeys(ms) ==> k !in keys
    requires UsageWithin(Plus(c.usage, MembersUsage(ms)), limits)
    ensures ScanMembers(raw, limits, c, depth, keys)
         == Ok(Cursor(c.pos + |MembersTail(ms)|, Plus(c.usage, MembersUsage(ms))))
    decreases ms, 4
  {
    hide ValidUtf8, CharLength, ScanValue, ScanSeparator, ScanKey, ScanColon, ValueText, ValueOk, ValueFits,
         ValueUsage, StringText, StringUsage, CharsOk, CoreKey, Decoded, At, MembersText, MembersTail, MembersBehind,
         SkipSpace, DistinctKeys, ScanMembers, Boundary, MemberScanned, UsageWithin, MembersUsage;
    var after := ms.after;
    assert Decoded(ms.key) == MemberKeys(ms)[0];
    MembersUsageSplit(limits, c, ms);
    CompleteMember(raw, limits, c, depth, keys, ms);
    var k, v := (AfterKey(c, ms), Decoded(ms.key)), AfterValue(c, ms);
    var colon := k.0.pos + |ms.gap| + 1;
    MemberScannedEnds(raw, limits, c, depth, keys, k, colon, v);
    if ms.LastMember? {
      BehindFollows(raw, v.pos, ms);
      CompleteClose(raw, v.pos, RBRACE, after);
      MembersStep(raw, limits, c, depth, keys, k, colon, v, Close(v.pos + |after| + 1));
    } else {
      CompleteMoreMembers(raw, v.pos, ms);
      RestKeys(ms, keys);
      var next := Cursor(v.pos + |after| + 1 + |ms.rest.lead|, v.usage);
      MembersStep(raw, limits, c, depth, keys, k, colon, v, Next(next.pos));
      assert |keys + {k.1}| == |keys| + 1;
      CompleteMembers(raw, limits, next, depth, keys + {k.1}, ms.rest);
    }
  }

  lemma BehindFollows(raw: bytes, end: nat, ms: Members)
    requires MembersOk(ms) && At(raw, end, MembersBehind(ms))
    ensures Follow(raw, end) && (ms.LastMember? ==> MembersBehind(ms) == ms.after + [RBRACE])
  {
    hide CharsOk, CoreKey, Decoded, ValueOk, At, MembersText;
    AtFirst(raw, end, MembersBehind(ms));
  }

  lemma RestKeys(ms: Members, keys: set<bytes>)
    requires ms.MoreMembers? && KeysOk(ms)
    requires DistinctKeys(MemberKeys(ms)) && forall k :: k in MemberKeys(ms) ==> k !in keys
    ensures DistinctKeys(MemberKeys(ms.rest))
    ensures forall k :: k in MemberKeys(ms.rest) ==> k !in keys + {Decoded(ms.key)}
  {
    hide CharsOk, Decoded;
    var all, rest := MemberKeys(ms), MemberKeys(ms.rest);
    assert all == [Decoded(ms.key)] + rest;
    forall k | k in rest ensures k !in keys + {Decoded(ms.key)} {
      var i :| 0 <= i < |rest| && rest[i] == k;
      assert all[i + 1] == k && all[0] == Decoded(ms.key);
    }
    assert forall i :: 0 <= i < |rest| ==> rest[i] == all[i + 1];
  }

  lemma CompleteMoreMembers(raw: bytes, end: nat, ms: Members)
    requires ms.MoreMembers? && MembersOk(ms) && Boundary(raw, end) && At(raw, end, MembersBehind(ms))
    ensures ScanSeparator(raw, end, RBRACE) == Ok(Next(end + |ms.after| + 1 + |ms.rest.lead|))
    ensures At(raw, end + |ms.after| + 1 + |ms.rest.lead|, MembersTail(ms.rest))
    ensures |MembersBehind(ms)| == |ms.after| + 1 + |ms.rest.lead| + |MembersTail(ms.rest)|
  {
    hide ValidUtf8, CharLength, ScanSeparator, MembersTail, MembersText, ValueOk, CoreKey, Decoded, CharsOk, At;
    var rest, after := ms.rest, ms.after;
    assert MembersBehind(ms) == (after + [COMMA]) + MembersText(rest);
    AtConcat(raw, end, after + [COMMA], MembersText(rest));
    MembersHead(raw, end + |after| + 1, rest);
    AtConcat(raw, end, after + [COMMA], rest.lead);
    assert after + ([COMMA] + rest.lead) == (after + [COMMA]) + rest.lead;
    CompleteNext(raw, end, RBRACE, after, rest.lead);
  }

  // ----- main results

  /** The text of a derivation tree is valid UTF-8. */
  lemma {:induction false} ValueTextValid(v: Value)
    requires ValueOk(v)
    ensures ValidUtf8(ValueText(v))
  {
    hide CharLength;
    match v {
      case Literal(w) => AsciiValid(WordText(w));
      case Number(n) =>
        AsciiValid(SignText(n)); AsciiValid(n.whole); AsciiValid(FractionText(n.fraction)); AsciiValid(ExponentText(n.exponent));
        ValidConcat(SignText(n), n.whole);
        ValidConcat(SignText(n) + n.whole, FractionText(n.fraction));
        ValidConcat(SignText(n) + n.whole + FractionText(n.fraction), ExponentText(n.exponent));
      case Str(cs) => StringTextValid(cs);
      case EmptyArray(s) => AsciiValid(ValueText(v));
      case EmptyObject(s) => AsciiValid(ValueText(v));
      case Array(items) =>
        AsciiValid([LBRACKET]);
        ItemsTextValid(items);
        ValidConcat([LBRACKET], ItemsText(items));
      case Object(ms) =>
        AsciiValid([LBRACE]);
        MembersTextValid(ms);
        ValidConcat([LBRACE], MembersText(ms));
    }
  }

  lemma {:induction false} CharsTextValid(cs: Chars)
    requires CharsOk(cs)
    ensures ValidUtf8(CharsText(cs))
  {
    hide CharLength, CharText, CharOk;
    if cs != [] {
      CharDecodedValid(cs[0]);
      CharsTextValid(cs[1..]);
      ValidConcat(CharText(cs[0]), CharsText(cs[1..]));
    }
  }

  lemma StringTextValid(cs: Chars)
    requires CharsOk(cs)
    ensures ValidUtf8(StringText(cs))
  {
    hide CharLength, CharsText, CharsOk;
    AsciiValid([QUOTE]);
    CharsTextValid(cs);
    ValidConcat([QUOTE], CharsText(cs));
    ValidConcat([QUOTE] + CharsText(cs), [QUOTE]);
  }

  lemma {:induction false} ItemsTextValid(items: Items)
    requires ItemsOk(items)
    ensures ValidUtf8(ItemsText(items))
  {
    hide CharLength, ValueText, ValueOk, ValidUtf8;
    AsciiValid(items.lead);
    AsciiValid(items.after);
    ValueTextValid(items.item);
    if items.LastItem? {
      AsciiValid([RBRACKET]);
      ValidConcat(items.after, [RBRACKET]);
    } else {
      AsciiValid([COMMA]);
      ItemsTextValid(items.rest);
      ValidConcat([COMMA], ItemsText(items.rest));
      ValidConcat(items.after, [COMMA] + ItemsText(items.rest));
    }
    ValidConcat(ValueText(items.item), ItemsBehind(items));
    ValidConcat(items.lead, ItemsTail(items));
  }

  lemma {:induction false} MembersTextValid(ms: Members)
    requires MembersOk(ms)
    ensures ValidUtf8(MembersText(ms))
  {
    hide CharLength, ValueText, ValueOk, StringText, CharsOk, CoreKey, Decoded, ValidUtf8;
    AsciiValid(ms.lead);
    StringTextValid(ms.key);
    AsciiValid(ms.gap + [COLON]);
    AsciiValid(ms.pad);
    ValueTextValid(ms.value);
    AsciiValid(ms.after);
    if ms.LastMember? {
      AsciiValid([RBRACE]);
      ValidConcat(ms.after, [RBRACE]);
    } else {
      AsciiValid([COMMA]);
      MembersTextValid(ms.rest);
      ValidConcat([COMMA], MembersText(ms.rest));
      ValidConcat(ms.after, [COMMA] + MembersText(ms.rest));
    }
    var behind := MembersBehind(ms);
    ValidConcat(ms.pad, ValueText(ms.value));
    ValidConcat(ms.pad + ValueText(ms.value), behind);
    ValidConcat(ms.gap + [COLON], (ms.pad + ValueText(ms.value)) + behind);
    ValidConcat(StringText(ms.key), (ms.gap + [COLON]) + ((ms.pad + ValueText(ms.value)) + behind));
    ValidConcat(ms.lead, MembersTail(ms));
  }

  lemma DerivedTextValid(raw: bytes, before: bytes, v: Value, after: bytes)
    requires Derives(raw, before, v, after)
    ensures ValidUtf8(raw)
  {
    hide CharLength, ValueOk, ValueText, ValidUtf8;
    AsciiValid(before);
    AsciiValid(after);
    ValueTextValid(v);
    ValidConcat(before, ValueText(v));
    ValidConcat(before + ValueText(v), after);
  }

  lemma FourParts(raw: bytes, a: nat, b: nat, c: nat)
    requires a <= b <= c <= |raw|
    ensures raw == (raw[..a] + raw[a..b]) + raw[b..c] + raw[c..]
  {
  }

  /** A value read after white space, with nothing but white space behind it, makes a JSON text. */
  lemma Assembled(raw: bytes, start: nat, lead: bytes, v: Value, end: nat)
    requires start <= |raw| && AllSpace(raw[..start]) && AllSpace(lead) && ValueOk(v)
    requires At(raw, start, lead + ValueText(v)) && end == start + |lead| + |ValueText(v)| && AllSpace(raw[end..])
    ensures Derives(raw, raw[..start] + lead, v, raw[end..])
  {
    hide ValueOk, ValueText;
    AtConcat(raw, start, lead, ValueText(v));
    FourParts(raw, start, start + |lead|, end);
  }

  lemma AcceptedIsDerivable(raw: bytes, limits: Limits)
    requires Validate(raw, limits).Ok?
    ensures BoundedJson(raw, limits)
  {
    hide ScanValue, ValueOk, ValueText, ValueFits, ValueUsage, ValidUtf8, CharLength, AllSpace, At;
    assert raw[0..] == raw;
    var start := SkipSpace(raw, 0);
    var c := Cursor(start, NOTHING);
    var lead, v := SoundValue(raw, limits, c, 0);
    var end := ScanValue(raw, limits, c, 0).value.pos;
    assert raw[0..start] == raw[..start] && raw[end..SkipSpace(raw, end)] == raw[end..];
    assert Plus(NOTHING, ValueUsage(v)) == ValueUsage(v);
    hide SkipSpace;
    Assembled(raw, start, lead, v, end);
  }

  lemma PartsAt(raw: bytes, a: bytes, b: bytes, c: bytes)
    requires raw == a + b + c
    ensures At(raw, 0, a) && At(raw, |a|, b) && At(raw, |a| + |b|, c)
  {
    hide At;
    AtWhole(raw);
    AtConcat(raw, 0, a + b, c);
    AtConcat(raw, 0, a, b);
  }

  /** Where the three parts of a JSON text stand. */
  lemma DerivedLayout(raw: bytes, before: bytes, v: Value, after: bytes)
    requires Derives(raw, before, v, after)
    ensures At(raw, |before|, [] + ValueText(v)) && SkipSpace(raw, 0) == |before|
    ensures var end := |before| + |ValueText(v)|; Follow(raw, end) && SkipSpace(raw, end) == |raw|
  {
    hide ValueOk, ValueText, At, ValidUtf8, CharLength, SkipSpace;
    PartsAt(raw, before, ValueText(v), after);
    ValueHead(v);
    AtFirst(raw, |before|, ValueText(v));
    SkipSpaceExact(raw, 0, before);
    assert [] + ValueText(v) == ValueText(v);
    AfterLayout(raw, |before| + |ValueText(v)|, after);
  }

  lemma AfterLayout(raw: bytes, end: nat, after: bytes)
    requires AllSpace(after) && At(raw, end, after) && end + |after| == |raw|
    ensures Follow(raw, end) && SkipSpace(raw, end) == |raw|
  {
    hide At, SkipSpace;
    if after != [] { AtFirst(raw, end, after); }
    SkipSpaceExact(raw, end, after);
  }

  lemma AtWhole(raw: bytes)
    ensures At(raw, 0, raw)
  {
  }

  lemma DerivableIsAccepted(raw: bytes, limits: Limits, before: bytes, v: Value, after: bytes)
    requires |raw| <= limits.maxBodyBytes && Derives(raw, before, v, after)
    requires ValueFits(v, limits, 0) && UsageWithin(ValueUsage(v), limits)
    ensures Validate(raw, limits) == Ok(())
  {
    hide ScanValue, ValueOk, ValueText, ValueFits, ValueUsage, ValidUtf8, CharLength, SkipSpace, At, Follow;
    DerivedTextValid(raw, before, v, after);
    DerivedLayout(raw, before, v, after);
    assert raw[0..] == raw;
    assert Plus(NOTHING, ValueUsage(v)) == ValueUsage(v);
    CompleteValue(raw, limits, Cursor(|before|, NOTHING), 0, [], v);
  }

  /** `validate_bounded_json` accepts exactly the JSON texts that stay within the limits. */
  lemma AcceptsExactlyBoundedJson(raw: bytes, limits: Limits)
    ensures Validate(raw, limits).Ok? <==> BoundedJson(raw, limits)
    ensures BoundedJson(raw, limits) ==> ValidUtf8(raw)
  {
    hide Validate, ValueOk, ValueFits, ValueUsage, ValueText;
    if Validate(raw, limits).Ok? {
      AcceptedIsDerivable(raw, limits);
    }
    if BoundedJson(raw, limits) {
      var before, v, after :| Derives(raw, before, v, after) && ValueFits(v, limits, 0) && UsageWithin(ValueUsage(v), limits);
      DerivableIsAccepted(raw, limits, before, v, after);
      DerivedTextValid(raw, before, v, after);
    }
  }

  predicate LimitsBelow(a: Limits, b: Limits) {
    && a.maxBodyBytes <= b.maxBodyBytes && a.maxNestingDepth <= b.maxNestingDepth
    && a.maxKeyLengthBytes <= b.maxKeyLengthBytes && a.maxKeysPerObject <= b.maxKeysPerObject
    && a.maxTotalObjectKeys <= b.maxTotalObjectKeys && a.maxArrayLength <= b.maxArrayLength
    && a.maxTotalTokens <= b.maxTotalTokens && a.maxStringLengthBytes <= b.maxStringLengthBytes
    && a.maxTotalStringBytes <= b.maxTotalStringBytes && a.maxNumericTokenLength <= b.maxNumericTokenLength
    && a.maxEscapeCount <= b.maxEscapeCount
  }

  lemma {:induction false} FitsMonotone(v: Value, a: Limits, b: Limits, depth: nat)
    requires LimitsBelow(a, b) && ValueFits(v, a, depth)
    ensures ValueFits(v, b, depth)
  {
    if v.Array? { ItemsFitMonotone(v.items, a, b, depth + 1); }
    if v.Object? { MembersFitMonotone(v.members, a, b, depth + 1); }
  }

  lemma {:induction false} ItemsFitMonotone(items: Items, a: Limits, b: Limits, depth: nat)
    requires LimitsBelow(a, b) && ItemsFit(items, a, depth)
    ensures ItemsFit(items, b, depth)
  {
    FitsMonotone(items.item, a, b, depth);
    if items.MoreItems? { ItemsFitMonotone(items.rest, a, b, depth); }
  }

  lemma {:induction false} MembersFitMonotone(ms: Members, a: Limits, b: Limits, depth: nat)
    requires LimitsBelow(a, b) && MembersFit(ms, a, depth)
    ensures MembersFit(ms, b, depth)
  {
    FitsMonotone(ms.value, a, b, depth);
    if ms.MoreMembers? { MembersFitMonotone(ms.rest, a, b, depth); }
  }

  /** Raising any of the limits keeps every accepted text accepted. */
  lemma AcceptanceMonotone(raw: bytes, a: Limits, b: Limits)
    requires LimitsBelow(a, b) && Validate(raw, a).Ok?
    ensures Validate(raw, b).Ok?
  {
    hide Validate, ValueOk, ValueFits, ValueUsage, ValueText;
    AcceptsExactlyBoundedJson(raw, a);
    var before, v, after :| Derives(raw, before, v, after) && ValueFits(v, a, 0) && UsageWithin(ValueUsage(v), a);
    FitsMonotone(v, a, b, 0);
    assert BoundedJson(raw, b);
    AcceptsExactlyBoundedJson(raw, b);
  }
}
