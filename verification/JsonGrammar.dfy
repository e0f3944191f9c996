/** The declarative side of the bounded scanner: JSON texts as derivation trees.

    RFC 8259 sections 2 to 7, with two restrictions the source adds: a `\u` escape of a
    surrogate must be half of a proper pair, and an object key must decode to a core key.
    A tree spells exactly one byte string; the tree's measures are what the budgets bound. */
module JsonGrammar {
  import opened Bytes
  import opened Utf8
  import opened Wrappers

  /** InputLimitsProfile, without the limits that only the typed decoder reads. */
  datatype Limits = Limits(
    maxBodyBytes: nat, maxNestingDepth: nat, maxKeyLengthBytes: nat, maxKeysPerObject: nat,
    maxTotalObjectKeys: nat, maxArrayLength: nat, maxTotalTokens: nat, maxStringLengthBytes: nat,
    maxTotalStringBytes: nat, maxNumericTokenLength: nat, maxEscapeCount: nat)

  const QUOTE: byte := 0x22
  const BACKSLASH: byte := 0x5c
  const SLASH: byte := 0x2f
  const LBRACE: byte := 0x7b
  const RBRACE: byte := 0x7d
  const LBRACKET: byte := 0x5b
  const RBRACKET: byte := 0x5d
  const COLON: byte := 0x3a
  const COMMA: byte := 0x2c
  const MINUS: byte := 0x2d
  const PLUS: byte := 0x2b
  const DOT: byte := 0x2e
  const LOWER_U: byte := 0x75

  predicate IsSpace(b: byte) { b == 0x20 || b == 0x0a || b == 0x0d || b == 0x09 }
  predicate IsDigit(b: byte) { 0x30 <= b <= 0x39 }
  predicate IsAlpha(b: byte) { 0x41 <= b <= 0x5a || 0x61 <= b <= 0x7a }
  predicate IsExpMark(b: byte) { b == 0x65 || b == 0x45 }
  predicate IsSign(b: byte) { b == PLUS || b == MINUS }
  predicate AllSpace(s: bytes) { forall i :: 0 <= i < |s| ==> IsSpace(s[i]) }
  predicate AllDigits(s: bytes) { forall i :: 0 <= i < |s| ==> IsDigit(s[i]) }

  // ----- strings

  predicate IsHex(b: byte) { IsDigit(b) || 0x61 <= b <= 0x66 || 0x41 <= b <= 0x46 }

  function HexValue(b: byte): (r: nat)
    requires IsHex(b)
    ensures r < 16
  {
    if IsDigit(b) then b - 0x30 else if b >= 0x61 then b - 0x61 + 10 else b - 0x41 + 10
  }

  type Quad = q: bytes | |q| == 4 && forall i :: 0 <= i < 4 ==> IsHex(q[i]) witness [0x30, 0x30, 0x30, 0x30]

  function QuadValue(q: Quad): (r: nat)
    ensures r <= 0xFFFF
  {
    4096 * HexValue(q[0]) + 256 * HexValue(q[1]) + 16 * HexValue(q[2]) + HexValue(q[3])
  }

  predicate HighSurrogate(v: int) { 0xD800 <= v <= 0xDBFF }
  predicate LowSurrogate(v: int) { 0xDC00 <= v <= 0xDFFF }

  /** RFC 2781 section 2.2, as the source computes it. */
  function PairScalar(hi: int, lo: int): (cp: int)
    requires HighSurrogate(hi) && LowSurrogate(lo)
    ensures 0x10000 <= cp <= 0x10FFFF && Scalar(cp)
  {
    0x10000 + (hi - 0xD800) * 1024 + (lo - 0xDC00)
  }

  predicate IsShortEscape(b: byte) {
    b in {QUOTE, BACKSLASH, SLASH, 0x62, 0x66, 0x6e, 0x72, 0x74}
  }

  function ShortEscape(b: byte): byte
    requires IsShortEscape(b)
  {
    match b
    case 0x62 => 0x08
    case 0x66 => 0x0c
    case 0x6e => 0x0a
    case 0x72 => 0x0d
    case 0x74 => 0x09
    case _ => b
  }

  datatype Char =
    | Plain(b: byte)
    | Multi(text: bytes)
    | Short(escape: byte)
    | Unicode(quad: Quad)
    | Pair(hi: Quad, lo: Quad)

  predicate CharOk(c: Char) {
    match c
    case Plain(b) => 0x20 <= b <= 0x7f && b != QUOTE && b != BACKSLASH
    case Multi(t) => t != [] && t[0] >= 0x80 && CharLength(t) == |t|
    case Short(e) => IsShortEscape(e)
    case Unicode(q) => Scalar(QuadValue(q))
    case Pair(hi, lo) => HighSurrogate(QuadValue(hi)) && LowSurrogate(QuadValue(lo))
  }

  function CharText(c: Char): (r: bytes)
  {
    match c
    case Plain(b) => [b]
    case Multi(t) => t
    case Short(e) => [BACKSLASH, e]
    case Unicode(q) => [BACKSLASH, LOWER_U] + q
    case Pair(hi, lo) => [BACKSLASH, LOWER_U] + hi + [BACKSLASH, LOWER_U] + lo
  }

  function CharDecoded(c: Char): (r: bytes)
    requires CharOk(c)
  {
    match c
    case Plain(b) => [b]
    case Multi(t) => t
    case Short(e) => [ShortEscape(e)]
    case Unicode(q) => EncodeUtf8(QuadValue(q))
    case Pair(hi, lo) => EncodeUtf8(PairScalar(QuadValue(hi), QuadValue(lo)))
  }

  predicate Escaped(c: Char) { c.Short? || c.Unicode? || c.Pair? }

  type Chars = seq<Char>

  predicate CharsOk(cs: Chars) { forall i :: 0 <= i < |cs| ==> CharOk(cs[i]) }

  function CharsText(cs: Chars): bytes {
    if cs == [] then [] else CharText(cs[0]) + CharsText(cs[1..])
  }

  function Decoded(cs: Chars): bytes
    requires CharsOk(cs)
  {
    if cs == [] then [] else CharDecoded(cs[0]) + Decoded(cs[1..])
  }

  function Escapes(cs: Chars): nat {
    if cs == [] then 0 else (if Escaped(cs[0]) then 1 else 0) + Escapes(cs[1..])
  }

  function StringText(cs: Chars): bytes {
    [QUOTE] + CharsText(cs) + [QUOTE]
  }

  /** `canonical_core_key` */
  predicate CoreKey(key: bytes) {
    && key != []
    && IsAlpha(key[0])
    && forall i :: 1 <= i < |key| ==> IsAlpha(key[i]) || IsDigit(key[i]) || key[i] == 0x5f
  }

  // ----- numbers

  datatype Exponent = Exponent(mark: byte, sign: bytes, digits: bytes)
  datatype Num = Num(negative: bool, whole: bytes, fraction: Option<bytes>, exponent: Option<Exponent>)

  predicate ExponentOk(e: Exponent) {
    && IsExpMark(e.mark)
    && (e.sign == [] || (|e.sign| == 1 && IsSign(e.sign[0])))
    && e.digits != [] && AllDigits(e.digits)
  }

  predicate NumOk(n: Num) {
    && n.whole != [] && AllDigits(n.whole) && (n.whole[0] == 0x30 ==> |n.whole| == 1)
    && (n.fraction.Some? ==> n.fraction.value != [] && AllDigits(n.fraction.value))
    && (n.exponent.Some? ==> ExponentOk(n.exponent.value))
  }

  function SignText(n: Num): bytes { if n.negative then [MINUS] else [] }
  function FractionText(f: Option<bytes>): bytes { if f.Some? then [DOT] + f.value else [] }
  function ExponentText(e: Option<Exponent>): bytes {
    if e.Some? then [e.value.mark] + e.value.sign + e.value.digits else []
  }
  function NumText(n: Num): bytes {
    SignText(n) + n.whole + FractionText(n.fraction) + ExponentText(n.exponent)
  }

  // ----- values

  datatype Word = True | False | Null

  function WordText(w: Word): (r: bytes)
    ensures |r| >= 4
  {
    match w
    case True => [0x74, 0x72, 0x75, 0x65]
    case False => [0x66, 0x61, 0x6c, 0x73, 0x65]
    case Null => [0x6e, 0x75, 0x6c, 0x6c]
  }

  datatype Value =
    | Literal(word: Word)
    | Number(num: Num)
    | Str(chars: Chars)
    | EmptyArray(space: bytes)
    | Array(items: Items)
    | EmptyObject(space: bytes)
    | Object(members: Members)

  /** `lead` is the white space before the item, `after` the white space behind it. */
  datatype Items =
    | LastItem(lead: bytes, item: Value, after: bytes)
    | MoreItems(lead: bytes, item: Value, after: bytes, rest: Items)

  /** lead "key" gap : pad value after */
  datatype Members =
    | LastMember(lead: bytes, key: Chars, gap: bytes, pad: bytes, value: Value, after: bytes)
    | MoreMembers(lead: bytes, key: Chars, gap: bytes, pad: bytes, value: Value, after: bytes, rest: Members)

  function ValueText(v: Value): bytes
    decreases v, 0
  {
    match v
    case Literal(w) => WordText(w)
    case Number(n) => NumText(n)
    case Str(cs) => StringText(cs)
    case EmptyArray(s) => [LBRACKET] + s + [RBRACKET]
    case Array(items) => [LBRACKET] + ItemsText(items)
    case EmptyObject(s) => [LBRACE] + s + [RBRACE]
    case Object(ms) => [LBRACE] + MembersText(ms)
  }

  /** Text of the items and of the bracket that closes them. */
  function ItemsText(items: Items): bytes
    decreases items, 2
  {
    items.lead + ItemsTail(items)
  }

  function ItemsTail(items: Items): bytes
    decreases items, 1
  {
    ValueText(items.item) + ItemsBehind(items)
  }

  function ItemsBehind(items: Items): bytes
    decreases items, 0
  {
    items.after +
    match items
    case LastItem(_, _, _) => [RBRACKET]
    case MoreItems(_, _, _, rest) => [COMMA] + ItemsText(rest)
  }

  function MembersText(ms: Members): bytes
    decreases ms, 2
  {
    ms.lead + MembersTail(ms)
  }

  function MembersTail(ms: Members): bytes
    decreases ms, 1
  {
    StringText(ms.key) + ((ms.gap + [COLON]) + ((ms.pad + ValueText(ms.value)) + MembersBehind(ms)))
  }

  function MembersBehind(ms: Members): bytes
    decreases ms, 0
  {
    ms.after +
    match ms
    case LastMember(_, _, _, _, _, _) => [RBRACE]
    case MoreMembers(_, _, _, _, _, _, rest) => [COMMA] + MembersText(rest)
  }

  /** The grammar: which trees are derivations. */
  predicate ValueOk(v: Value) {
    match v
    case Literal(_) => true
    case Number(n) => NumOk(n)
    case Str(cs) => CharsOk(cs)
    case EmptyArray(s) => AllSpace(s)
    case Array(items) => ItemsOk(items)
    case EmptyObject(s) => AllSpace(s)
    case Object(ms) => KeysOk(ms) && MembersOk(ms) && DistinctKeys(MemberKeys(ms))
  }

  predicate ItemsOk(items: Items) {
    && AllSpace(items.lead) && AllSpace(items.after) && ValueOk(items.item)
    && (items.MoreItems? ==> ItemsOk(items.rest))
  }

  predicate MembersOk(ms: Members) {
    && AllSpace(ms.lead) && AllSpace(ms.gap) && AllSpace(ms.pad) && AllSpace(ms.after)
    && CharsOk(ms.key) && CoreKey(Decoded(ms.key)) && ValueOk(ms.value)
    && (ms.MoreMembers? ==> MembersOk(ms.rest))
  }

  predicate KeysOk(ms: Members) {
    CharsOk(ms.key) && (ms.MoreMembers? ==> KeysOk(ms.rest))
  }

  /** Decoded keys of one object, in order. */
  function MemberKeys(ms: Members): (r: seq<bytes>)
    requires KeysOk(ms)
  {
    [Decoded(ms.key)] + if ms.MoreMembers? then MemberKeys(ms.rest) else []
  }

  predicate DistinctKeys(keys: seq<bytes>) {
    forall i, j :: 0 <= i < j < |keys| ==> keys[i] != keys[j]
  }

  // ----- measures

  /** What the running counters of the scanner count. */
  datatype Usage = Usage(tokens: nat, keys: nat, stringBytes: nat, escapes: nat)

  function Plus(a: Usage, b: Usage): Usage {
    Usage(a.tokens + b.tokens, a.keys + b.keys, a.stringBytes + b.stringBytes, a.escapes + b.escapes)
  }

  const NOTHING := Usage(0, 0, 0, 0)
  const ONE_TOKEN := Usage(1, 0, 0, 0)

  function StringUsage(cs: Chars): Usage
    requires CharsOk(cs)
  {
    Usage(0, 0, |Decoded(cs)|, Escapes(cs))
  }

  /** A value costs one token and what its contents cost. */
  function ValueUsage(v: Value): Usage
    requires ValueOk(v)
    decreases v, 1
  {
    Plus(ONE_TOKEN, BodyUsage(v))
  }

  function BodyUsage(v: Value): Usage
    requires ValueOk(v)
    decreases v, 0
  {
    match v
    case Str(cs) => StringUsage(cs)
    case Array(items) => ItemsUsage(items)
    case Object(ms) => MembersUsage(ms)
    case _ => NOTHING
  }

  function ItemsUsage(items: Items): Usage
    requires ItemsOk(items)
    decreases items, 0
  {
    Plus(ValueUsage(items.item), if items.MoreItems? then ItemsUsage(items.rest) else NOTHING)
  }

  function MembersUsage(ms: Members): Usage
    requires MembersOk(ms)
    decreases ms, 0
  {
    Plus(Plus(Plus(StringUsage(ms.key), Usage(0, 1, 0, 0)), ValueUsage(ms.value)),
         if ms.MoreMembers? then MembersUsage(ms.rest) else NOTHING)
  }

  predicate UsageWithin(u: Usage, limits: Limits) {
    && u.tokens <= limits.maxTotalTokens
    && u.keys <= limits.maxTotalObjectKeys
    && u.stringBytes <= limits.maxTotalStringBytes
    && u.escapes <= limits.maxEscapeCount
  }

  function ItemCount(items: Items): nat {
    1 + if items.MoreItems? then ItemCount(items.rest) else 0
  }

  function MemberCount(ms: Members): nat {
    1 + if ms.MoreMembers? then MemberCount(ms.rest) else 0
  }

  /** The limits that bound one node each; `depth` is the number of enclosing containers. */
  predicate ValueFits(v: Value, limits: Limits, depth: nat) {
    match v
    case Literal(_) => true
    case Number(n) => |NumText(n)| <= limits.maxNumericTokenLength
    case Str(cs) => |CharsText(cs)| <= limits.maxStringLengthBytes
    case EmptyArray(_) => depth + 1 <= limits.maxNestingDepth
    case EmptyObject(_) => depth + 1 <= limits.maxNestingDepth
    case Array(items) =>
      depth + 1 <= limits.maxNestingDepth
      && ItemCount(items) <= limits.maxArrayLength && ItemsFit(items, limits, depth + 1)
    case Object(ms) =>
      depth + 1 <= limits.maxNestingDepth
      && MemberCount(ms) <= limits.maxKeysPerObject && MembersFit(ms, limits, depth + 1)
  }

  predicate ItemsFit(items: Items, limits: Limits, depth: nat) {
    ValueFits(items.item, limits, depth) && (items.MoreItems? ==> ItemsFit(items.rest, limits, depth))
  }

  predicate MembersFit(ms: Members, limits: Limits, depth: nat) {
    && |CharsText(ms.key)| <= limits.maxKeyLengthBytes
    && ValueFits(ms.value, limits, depth)
    && (ms.MoreMembers? ==> MembersFit(ms.rest, limits, depth))
  }

  /** `raw` is a JSON text: white space, one value, white space. */
  ghost predicate Derives(raw: bytes, before: bytes, v: Value, after: bytes) {
    && AllSpace(before) && AllSpace(after) && ValueOk(v)
    && raw == before + ValueText(v) + after
  }

  /** What the scanner is for: a JSON text whose size and measures are within the limits. */
  ghost predicate BoundedJson(raw: bytes, limits: Limits) {
    && |raw| <= limits.maxBodyBytes
    && exists before, v, after :: Derives(raw, before, v, after)
         && ValueFits(v, limits, 0) && UsageWithin(ValueUsage(v), limits)
  }
}
