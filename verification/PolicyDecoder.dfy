/** A reader for the digest encoding of policies (policy.rs): it takes the fields off the front of the
    bytes one after another, and recovers every accepted program from its bytes. */
module PolicyDecoder {
  import opened Bytes
  import opened Wrappers
  import opened Policy

  datatype DecodeError = Truncated | UnknownTag | BadIdentifier | TrailingBytes

  /** A value taken off the front, and what is left behind it. */
  datatype Read<+T> = Read(value: T, rest: bytes)

  type Decoding<+T> = Result<Read<T>, DecodeError>

  // ----- numbers

  function FromBigEndian(b: bytes): (v: nat)
    ensures v < Pow256(|b|)
  {
    if b == [] then 0 else FromBigEndian(b[..|b| - 1]) * 256 + b[|b| - 1]
  }

  lemma {:induction false} ReadsBack(v: nat, width: nat)
    requires v < Pow256(width)
    ensures FromBigEndian(BigEndian(v, width)) == v
  {
    if width > 0 {
      var b := BigEndian(v, width);
      assert b[..|b| - 1] == BigEndian(v / 256, width - 1) && b[|b| - 1] == v % 256;
      ReadsBack(v / 256, width - 1);
    }
  }

  lemma {:induction false} WritesBack(b: bytes)
    ensures BigEndian(FromBigEndian(b), |b|) == b
  {
    if b != [] {
      var front := FromBigEndian(b[..|b| - 1]);
      WritesBack(b[..|b| - 1]);
      assert (front * 256 + b[|b| - 1]) / 256 == front && (front * 256 + b[|b| - 1]) % 256 == b[|b| - 1];
      assert b == b[..|b| - 1] + [b[|b| - 1]];
    }
  }

  function TakeFixed(b: bytes, width: nat): (r: Decoding<bytes>)
    ensures r.Ok? ==> |r.value.value| == width && b == r.value.value + r.value.rest
  {
    if |b| < width then Err(Truncated) else Ok(Read(b[..width], b[width..]))
  }

  lemma TakesFixed(a: bytes, x: bytes)
    ensures TakeFixed(a + x, |a|) == Ok(Read(a, x))
  {
    assert (a + x)[..|a|] == a && (a + x)[|a|..] == x;
  }

  function TakeU32(b: bytes): (r: Decoding<nat>)
    ensures r.Ok? ==> |r.value.rest| + 4 == |b|
  {
    var word :- TakeFixed(b, 4);
    Ok(Read(FromBigEndian(word.value), word.rest))
  }

  lemma TakesU32(n: nat, x: bytes)
    requires n < U32_BOUND
    ensures TakeU32(U32(n) + x) == Ok(Read(n, x))
  {
    Pow256Words();
    TakesFixed(U32(n), x);
    hide Pow256, BigEndian, FromBigEndian;
    ReadsBack(n, 4);
  }

  lemma TookU32(b: bytes)
    requires TakeU32(b).Ok?
    ensures TakeU32(b).value.value < U32_BOUND && b == U32(TakeU32(b).value.value) + TakeU32(b).value.rest
  {
    Pow256Words();
    hide Pow256, BigEndian, FromBigEndian;
    WritesBack(TakeFixed(b, 4).value.value);
  }

  function TakeI64(b: bytes): (r: Decoding<i64>)
    ensures r.Ok? ==> |r.value.rest| + 8 == |b|
  {
    var word :- TakeFixed(b, 8);
    Pow256Words();
    var v := FromBigEndian(word.value);
    Ok(Read(if v > I64_MAX then v - U64_BOUND else v, word.rest))
  }

  lemma TakesI64(v: i64, x: bytes)
    ensures TakeI64(I64(v) + x) == Ok(Read(v, x))
  {
    Pow256Words();
    TakesFixed(I64(v), x);
    hide Pow256, BigEndian, FromBigEndian;
    ReadsBack(if v < 0 then v + U64_BOUND else v, 8);
  }

  lemma TookI64(b: bytes)
    requires TakeI64(b).Ok?
    ensures b == I64(TakeI64(b).value.value) + TakeI64(b).value.rest
  {
    Pow256Words();
    hide Pow256, BigEndian, FromBigEndian;
    WritesBack(TakeFixed(b, 8).value.value);
  }

  // ----- texts

  function TakeFramed(b: bytes): (r: Decoding<bytes>)
    ensures r.Ok? ==> |r.value.value| + |r.value.rest| + 4 == |b|
  {
    var n :- TakeU32(b);
    TakeFixed(n.rest, n.value)
  }

  lemma TakesFramed(v: bytes, x: bytes)
    requires |v| < U32_BOUND
    ensures TakeFramed(Framed(v) + x) == Ok(Read(v, x))
  {
    hide U32, TakeU32;
    assert Framed(v) + x == U32(|v|) + (v + x);
    TakesU32(|v|, v + x);
    TakesFixed(v, x);
  }

  lemma TookFramed(b: bytes)
    requires TakeFramed(b).Ok?
    ensures |TakeFramed(b).value.value| < U32_BOUND && b == Framed(TakeFramed(b).value.value) + TakeFramed(b).value.rest
  {
    hide U32, TakeU32;
    TookU32(b);
    var n := TakeU32(b).value;
    assert U32(n.value) + (TakeFramed(b).value.value + TakeFramed(b).value.rest)
        == (U32(n.value) + TakeFramed(b).value.value) + TakeFramed(b).value.rest;
  }

  function TakeId(b: bytes): (r: Decoding<RegisteredId>)
    ensures r.Ok? ==> |r.value.rest| + 4 < |b|
  {
    var text :- TakeFramed(b);
    if IsRegistered(text.value) then
      var id: RegisteredId := text.value;
      Ok(Read(id, text.rest))
    else Err(BadIdentifier)
  }

  lemma TakesId(v: RegisteredId, x: bytes)
    ensures TakeId(Framed(v) + x) == Ok(Read(v, x))
  {
    hide Framed, TakeFramed, RegisteredChar;
    TakesFramed(v, x);
  }

  lemma TookId(b: bytes)
    requires TakeId(b).Ok?
    ensures b == Framed(TakeId(b).value.value) + TakeId(b).value.rest
  {
    hide Framed, TakeFramed, IsRegistered;
    TookFramed(b);
  }

  // ----- codes of one byte

  function TakeByte(b: bytes): (r: Decoding<byte>)
    ensures r.Ok? ==> b == [r.value.value] + r.value.rest
    ensures b != [] ==> r == Ok(Read(b[0], b[1..]))
  {
    if b == [] then Err(Truncated) else Ok(Read(b[0], b[1..]))
  }

  function KindOf(code: byte): (r: Result<PrincipalKind, DecodeError>)
    ensures forall k :: r == Ok(k) <==> KindCode(k) == code
  {
    match code
    case 0 => Ok(Human)
    case 1 => Ok(Agent)
    case 2 => Ok(ServicePrincipal)
    case 3 => Ok(Workload)
    case 4 => Ok(Device)
    case _ => Err(UnknownTag)
  }

  function ClassOf(code: byte): (r: Result<MembershipClass, DecodeError>)
    ensures forall c :: r == Ok(c) <==> ClassCode(c) == code
  {
    match code
    case 0 => Ok(Standard)
    case 1 => Ok(Guest)
    case 2 => Ok(ServiceMember)
    case 3 => Ok(ExternalCollaborator)
    case 4 => Ok(Child)
    case _ => Err(UnknownTag)
  }

  function EffectOf(code: byte): (r: Result<PolicyEffect, DecodeError>)
    ensures forall e :: r == Ok(e) <==> EffectCode(e) == code
  {
    match code
    case 1 => Ok(DenyEffect)
    case 2 => Ok(ApprovalEffect)
    case 3 => Ok(AllowEffect)
    case _ => Err(UnknownTag)
  }

  // ----- trees

  function DecodePredicate(b: bytes): (r: Decoding<Predicate>)
    ensures r.Ok? ==> |r.value.rest| < |b|
    decreases |b|, 1
  {
    var tag :- TakeByte(b);
    DecodeBody(tag.value, tag.rest)
  }

  function DecodeBody(tag: byte, b: bytes): (r: Decoding<Predicate>)
    ensures r.Ok? ==> |r.value.rest| <= |b|
    decreases |b|, 2
  {
    match tag
    case 1 => Ok(Read(Always, b))
    case 2 =>
      var n :- TakeU32(b);
      var children :- DecodeChildren(n.value, n.rest);
      Ok(Read(All(children.value), children.rest))
    case 3 =>
      var n :- TakeU32(b);
      var children :- DecodeChildren(n.value, n.rest);
      Ok(Read(Any(children.value), children.rest))
    case 4 =>
      var inner :- DecodePredicate(b);
      Ok(Read(Not(inner.value), inner.rest))
    case 5 =>
      var code :- TakeByte(b);
      var kind :- KindOf(code.value);
      Ok(Read(PrincipalKindIs(kind), code.rest))
    case 6 =>
      var code :- TakeByte(b);
      var class_ :- ClassOf(code.value);
      Ok(Read(MembershipClassIs(class_), code.rest))
    case 7 =>
      var id :- TakeId(b);
      Ok(Read(PurposeIs(id.value), id.rest))
    case 8 =>
      var id :- TakeId(b);
      Ok(Read(HasEntitlement(id.value), id.rest))
    case 9 =>
      var id :- TakeId(b);
      Ok(Read(HasEvidence(id.value), id.rest))
    case 10 =>
      var id :- TakeId(b);
      var value :- TakeId(id.rest);
      Ok(Read(HasTrustFact(id.value, value.value), value.rest))
    case 11 =>
      var id :- TakeId(b);
      Ok(Read(NoEffectiveRevocation(id.value), id.rest))
    case 12 =>
      var at :- TakeI64(b);
      Ok(Read(AtOrAfter(at.value), at.rest))
    case 13 =>
      var at :- TakeI64(b);
      Ok(Read(Before(at.value), at.rest))
    case _ => Err(UnknownTag)
  }

  /** `n` framed trees, each of which fills its frame. */
  function DecodeChildren(n: nat, b: bytes): (r: Decoding<seq<Predicate>>)
    ensures r.Ok? ==> |r.value.rest| <= |b| && |r.value.value| == n
    decreases |b|, 3
  {
    if n == 0 then Ok(Read([], b))
    else
      var frame :- TakeFramed(b);
      var first :- DecodePredicate(frame.value);
      if first.rest != [] then Err(TrailingBytes)
      else
        var others :- DecodeChildren(n - 1, frame.rest);
        Ok(Read([first.value] + others.value, others.rest))
  }

  function DecodeRules(n: nat, b: bytes): (r: Decoding<seq<Rule>>)
    ensures r.Ok? ==> |r.value.value| == n
  {
    if n == 0 then Ok(Read([], b))
    else
      var id :- TakeId(b);
      var condition :- DecodePredicate(id.rest);
      var code :- TakeByte(condition.rest);
      var effect :- EffectOf(code.value);
      var others :- DecodeRules(n - 1, code.rest);
      Ok(Read([Rule(id.value, condition.value, effect)] + others.value, others.rest))
  }

  function DecodeProgram(b: bytes): Result<Program, DecodeError> {
    var id :- TakeId(b);
    var version :- TakeU32(id.rest);
    var count :- TakeU32(version.rest);
    var rules :- DecodeRules(count.value, count.rest);
    var code :- TakeByte(rules.rest);
    var effect :- EffectOf(code.value);
    if code.rest != [] then Err(TrailingBytes)
    else
      TookU32(id.rest);
      Ok(Program(id.value, version.value, rules.value, effect))
  }

  // ----- decoding inverts encoding

  lemma {:induction false} DecodesPredicate(p: Predicate, x: bytes)
    requires Nodes(p) <= MAX_PREDICATE_NODES
    ensures DecodePredicate(EncodePredicate(p) + x) == Ok(Read(p, x))
    decreases p, 1
  {
    hide EncodeBody, DecodeBody, Nodes;
    var b := EncodePredicate(p) + x;
    assert b[0] == Tag(p) && b[1..] == EncodeBody(p) + x;
    DecodesBody(p, x);
  }

  lemma {:induction false} DecodesBody(p: Predicate, x: bytes)
    requires Nodes(p) <= MAX_PREDICATE_NODES
    ensures DecodeBody(Tag(p), EncodeBody(p) + x) == Ok(Read(p, x))
    decreases p, 0
  {
    hide U32, I64, Framed, EncodePredicate, DecodePredicate, TakeU32, TakeI64, TakeId, DecodeChildren, IsRegistered;
    match p {
      case Always => assert [] + x == x;
      case All(ps) => DecodesFamily(ps, x);
      case Any(ps) => DecodesFamily(ps, x);
      case Not(inner) => DecodesPredicate(inner, x);
      case PrincipalKindIs(k) => assert ([KindCode(k)] + x)[1..] == x;
      case MembershipClassIs(c) => assert ([ClassCode(c)] + x)[1..] == x;
      case PurposeIs(v) => TakesId(v, x);
      case HasEntitlement(v) => TakesId(v, x);
      case HasEvidence(v) => TakesId(v, x);
      case HasTrustFact(t, v) =>
        assert EncodeBody(p) + x == Framed(t) + (Framed(v) + x);
        TakesId(t, Framed(v) + x);
        TakesId(v, x);
      case NoEffectiveRevocation(v) => TakesId(v, x);
      case AtOrAfter(at) => TakesI64(at, x);
      case Before(at) => TakesI64(at, x);
    }
  }

  lemma {:induction false} DecodesFamily(ps: seq<Predicate>, x: bytes)
    requires NodesOf(ps) <= MAX_PREDICATE_NODES
    ensures TakeU32(U32(|ps|) + EncodeChildren(ps) + x) == Ok(Read(|ps|, EncodeChildren(ps) + x))
    ensures DecodeChildren(|ps|, EncodeChildren(ps) + x) == Ok(Read(ps, x))
    decreases ps, 3
  {
    hide U32, TakeU32, EncodeChildren, DecodeChildren;
    assert U32(|ps|) + EncodeChildren(ps) + x == U32(|ps|) + (EncodeChildren(ps) + x);
    TakesU32(|ps|, EncodeChildren(ps) + x);
    DecodesChildren(ps, x);
  }

  lemma {:induction false} DecodesChildren(ps: seq<Predicate>, x: bytes)
    requires NodesOf(ps) <= MAX_PREDICATE_NODES
    ensures DecodeChildren(|ps|, EncodeChildren(ps) + x) == Ok(Read(ps, x))
    decreases ps, 2
  {
    hide EncodePredicate, DecodePredicate, Nodes, Framed, TakeFramed;
    if ps == [] {
      assert [] + x == x;
    } else {
      var a, others := EncodePredicate(ps[0]), EncodeChildren(ps[1..]) + x;
      assert EncodeChildren(ps) + x == Framed(a) + others;
      LengthsNeverTruncate(ps[0]);
      TakesFramed(a, others);
      assert a + [] == a;
      DecodesPredicate(ps[0], []);
      DecodesChildren(ps[1..], x);
      assert ps == [ps[0]] + ps[1..];
    }
  }

  lemma {:induction false} DecodesRules(rules: seq<Rule>, x: bytes)
    requires RuleNodes(rules) <= MAX_PREDICATE_NODES
    ensures DecodeRules(|rules|, EncodeRules(rules) + x) == Ok(Read(rules, x))
  {
    hide EncodePredicate, DecodePredicate, Nodes, Framed, TakeId, IsRegistered;
    if rules == [] {
      assert [] + x == x;
    } else {
      var rule, others := rules[0], EncodeRules(rules[1..]) + x;
      var tail := [EffectCode(rule.effect)] + others;
      assert EncodeRules(rules) + x == Framed(rule.ruleId) + (EncodePredicate(rule.condition) + tail);
      TakesId(rule.ruleId, EncodePredicate(rule.condition) + tail);
      DecodesPredicate(rule.condition, tail);
      assert tail[1..] == others;
      DecodesRules(rules[1..], x);
      assert rules == [rule] + rules[1..];
    }
  }

  /** Every accepted program is read back from its bytes. */
  lemma DecodeInvertsEncode(p: Program)
    requires Acceptable(p)
    ensures DecodeProgram(EncodeProgram(p)) == Ok(p)
  {
    hide EncodeRules, DecodeRules, Framed, U32, BigEndian, TakeU32, TakeId, RulesShaped, DistinctRuleIds, IsRegistered;
    var end := [EffectCode(p.defaultEffect)];
    var afterCount := EncodeRules(p.rules) + end;
    TakesId(p.policyId, BigEndian(p.version, 4) + (U32(|p.rules|) + afterCount));
    VersionIsWord(p.version);
    TakesU32(p.version, U32(|p.rules|) + afterCount);
    TakesU32(|p.rules|, afterCount);
    DecodesRules(p.rules, end);
    assert end[1..] == [];
  }

  /** Trees are self-delimiting: whatever follows, the tree and the rest are determined. */
  lemma CancelPredicate(p: Predicate, x: bytes, q: Predicate, y: bytes)
    requires Nodes(p) <= MAX_PREDICATE_NODES && Nodes(q) <= MAX_PREDICATE_NODES
    requires EncodePredicate(p) + x == EncodePredicate(q) + y
    ensures p == q && x == y
  {
    hide EncodePredicate, DecodePredicate, Nodes;
    DecodesPredicate(p, x);
    DecodesPredicate(q, y);
  }

  /** Two accepted programs with the same bytes are the same program, so equal digests of
      accepted programs mean equal programs for every collision-free hash. */
  lemma ProgramBytesInjective(p: Program, q: Program)
    requires Acceptable(p) && Acceptable(q) && EncodeProgram(p) == EncodeProgram(q)
    ensures p == q
  {
    hide EncodeProgram, DecodeProgram, Acceptable;
    DecodeInvertsEncode(p);
    DecodeInvertsEncode(q);
  }

  lemma VersionIsWord(v: u32)
    ensures BigEndian(v, 4) == U32(v)
  {
    hide BigEndian;
  }

  // ----- what decodes is an encoding

  lemma {:induction false} DecodedPredicate(b: bytes)
    requires DecodePredicate(b).Ok?
    ensures b == EncodePredicate(DecodePredicate(b).value.value) + DecodePredicate(b).value.rest
    decreases |b|, 1
  {
    hide EncodeBody, DecodeBody;
    DecodedBody(b[0], b[1..]);
    var r := DecodePredicate(b).value;
    assert b == [b[0]] + (EncodeBody(r.value) + r.rest);
  }

  lemma {:induction false} DecodedBody(tag: byte, b: bytes)
    requires DecodeBody(tag, b).Ok?
    ensures var r := DecodeBody(tag, b).value; Tag(r.value) == tag && b == EncodeBody(r.value) + r.rest
    decreases |b|, 2
  {
    hide U32, I64, Framed, EncodePredicate, DecodePredicate, TakeU32, TakeI64, TakeId, DecodeChildren, IsRegistered;
    var r := DecodeBody(tag, b).value;
    match tag {
      case 1 => assert [] + b == b;
      case 2 => DecodedFamily(b);
      case 3 => DecodedFamily(b);
      case 4 => DecodedPredicate(b);
      case 5 =>
      case 6 =>
      case 7 => TookId(b);
      case 8 => TookId(b);
      case 9 => TookId(b);
      case 10 =>
        TookId(b);
        TookId(TakeId(b).value.rest);
        assert EncodeBody(r.value) + r.rest == Framed(r.value.factType) + (Framed(r.value.factValue) + r.rest);
      case 11 => TookId(b);
      case 12 => TookI64(b);
      case 13 => TookI64(b);
      case _ =>
    }
  }

  lemma {:induction false} DecodedFamily(b: bytes)
    requires TakeU32(b).Ok? && DecodeChildren(TakeU32(b).value.value, TakeU32(b).value.rest).Ok?
    ensures var r := DecodeChildren(TakeU32(b).value.value, TakeU32(b).value.rest).value;
            b == U32(|r.value|) + EncodeChildren(r.value) + r.rest
    decreases |b|, 0
  {
    hide U32, TakeU32, EncodeChildren, DecodeChildren;
    TookU32(b);
    var n := TakeU32(b).value;
    DecodedChildren(n.value, n.rest);
    var r := DecodeChildren(n.value, n.rest).value;
    assert U32(|r.value|) + EncodeChildren(r.value) + r.rest == U32(|r.value|) + (EncodeChildren(r.value) + r.rest);
  }

  lemma {:induction false} DecodedChildren(n: nat, b: bytes)
    requires DecodeChildren(n, b).Ok?
    ensures var r := DecodeChildren(n, b).value; b == EncodeChildren(r.value) + r.rest
    decreases |b|, 3
  {
    hide EncodePredicate, DecodePredicate, Framed, TakeFramed;
    if n == 0 {
      assert [] + b == b;
    } else {
      TookFramed(b);
      var frame := TakeFramed(b).value;
      DecodedPredicate(frame.value);
      DecodedChildren(n - 1, frame.rest);
      var first, others := DecodePredicate(frame.value).value, DecodeChildren(n - 1, frame.rest).value;
      assert frame.value == EncodePredicate(first.value) + [] == EncodePredicate(first.value);
      var all := [first.value] + others.value;
      assert all[0] == first.value && all[1..] == others.value;
      assert EncodeChildren(all) + others.rest == Framed(frame.value) + (EncodeChildren(others.value) + others.rest);
    }
  }

  lemma {:induction false} DecodedRules(n: nat, b: bytes)
    requires DecodeRules(n, b).Ok?
    ensures var r := DecodeRules(n, b).value; b == EncodeRules(r.value) + r.rest
  {
    hide EncodePredicate, DecodePredicate, Framed, TakeId, IsRegistered;
    if n == 0 {
      assert [] + b == b;
    } else {
      TookId(b);
      var id := TakeId(b).value;
      DecodedPredicate(id.rest);
      var condition := DecodePredicate(id.rest).value;
      var code := TakeByte(condition.rest).value;
      DecodedRules(n - 1, code.rest);
      var others := DecodeRules(n - 1, code.rest).value;
      var rule := Rule(id.value, condition.value, EffectOf(code.value).value);
      var all := [rule] + others.value;
      assert all[0] == rule && all[1..] == others.value;
      assert EncodeRules(all) + others.rest
          == Framed(rule.ruleId) + (EncodePredicate(rule.condition) + ([EffectCode(rule.effect)] + (EncodeRules(others.value) + others.rest)));
    }
  }

  /** The bytes of a program are the only ones that decode to it: there is one encoding of each. */
  lemma DecodedIsEncoding(b: bytes)
    requires DecodeProgram(b).Ok?
    ensures EncodeProgram(DecodeProgram(b).value) == b
  {
    hide EncodeRules, DecodeRules, Framed, U32, BigEndian, TakeU32, TakeId, IsRegistered;
    TookId(b);
    var id := TakeId(b).value;
    TookU32(id.rest);
    var version := TakeU32(id.rest).value;
    VersionIsWord(version.value);
    TookU32(version.rest);
    var count := TakeU32(version.rest).value;
    DecodedRules(count.value, count.rest);
    var rules := DecodeRules(count.value, count.rest).value;
    assert rules.rest == [rules.rest[0]];
  }
}
