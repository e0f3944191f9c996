/** Exact decimal amounts and the asset registry (money.rs). */
module Money {
  import opened Bytes
  import opened Wrappers

  const U128_BOUND: int := 0x1_0000_0000_0000_0000_0000_0000_0000_0000

  type u128 = v: int | 0 <= v < U128_BOUND
  type u8 = v: int | 0 <= v < 256

  datatype MoneyError =
    InvalidAssetSpec | DuplicateAsset | UnsupportedAsset | InactiveAsset | RegistryVersionMismatch
    | NonCanonicalAmount | ScaleExceeded | MagnitudeExceeded

  // ----- decimal numerals

  function Pow10(n: nat): (r: nat)
    ensures r >= 1
  {
    if n == 0 then 1 else 10 * Pow10(n - 1)
  }

  predicate IsDigit(b: byte) { '0' as int <= b <= '9' as int }

  predicate IsDigits(s: bytes) { forall i :: 0 <= i < |s| ==> IsDigit(s[i]) }

  /** The number a string of digits denotes. */
  function Value(s: bytes): nat
    requires IsDigits(s)
    decreases |s|
  {
    if s == [] then 0 else 10 * Value(s[..|s| - 1]) + (s[|s| - 1] - '0' as int)
  }

  lemma {:induction false} ValueBounded(s: bytes)
    requires IsDigits(s)
    ensures Value(s) < Pow10(|s|)
    decreases |s|
  {
    if s != [] { ValueBounded(s[..|s| - 1]); }
  }

  /** Multiplying a sum of products by ten. */
  lemma Scale(a: nat, b: nat, c: nat, d: nat)
    ensures 10 * (a * b + c) + d == a * (10 * b) + (10 * c + d)
    ensures 10 * (a * b) == (10 * a) * b
  {
  }

  lemma {:induction false} PowAdd(a: nat, b: nat)
    ensures Pow10(a + b) == Pow10(a) * Pow10(b)
  {
    if a > 0 {
      PowAdd(a - 1, b);
      assert a - 1 + b == a + b - 1;
      Scale(Pow10(a - 1), Pow10(b), 0, 0);
    }
  }

  lemma {:induction false} ValueConcat(a: bytes, b: bytes)
    requires IsDigits(a) && IsDigits(b)
    ensures IsDigits(a + b) && Value(a + b) == Value(a) * Pow10(|b|) + Value(b)
    decreases |b|
  {
    if b == [] {
      assert a + b == a;
    } else {
      var front, last := b[..|b| - 1], b[|b| - 1] - '0' as int;
      assert (a + b)[..|a + b| - 1] == a + front;
      ValueConcat(a, front);
      Scale(Value(a), Pow10(|front|), Value(front), last);
      assert Value(a + b) == 10 * Value(a + front) + last;
    }
  }

  lemma MaxScaleFits()
    ensures Pow10(38) < U128_BOUND
  {
    assert Pow10(4) == 10 * (10 * (10 * (10 * Pow10(0))));
    assert Pow10(8) == 10 * (10 * (10 * (10 * Pow10(4))));
    PowAdd(8, 8);
    PowAdd(16, 16);
    PowAdd(4, 32);
    assert Pow10(38) == 10 * (10 * Pow10(36));
  }

  lemma {:induction false} PowMonotone(a: nat, b: nat)
    requires a <= b
    ensures Pow10(a) <= Pow10(b)
    decreases b
  {
    if a < b { PowMonotone(a, b - 1); }
  }

  // ----- the parser

  const DOT: byte := '.' as int

  function CountDots(s: bytes): nat {
    if s == [] then 0 else (if s[0] == DOT then 1 else 0) + CountDots(s[1..])
  }

  /** Where the first point stands; the length of the text when there is none. */
  function FirstDot(s: bytes): (i: nat)
    ensures i <= |s| && DOT !in s[..i] && (i < |s| ==> s[i] == DOT)
  {
    if s == [] || s[0] == DOT then 0
    else
      var i := FirstDot(s[1..]);
      assert s[..i + 1] == [s[0]] + s[1..][..i];
      i + 1
  }

  function ParseU128(s: bytes): Option<u128>
    requires IsDigits(s)
  {
    if Value(s) < U128_BOUND then Some(Value(s)) else None
  }

  function CheckedPow10(n: nat): Option<u128> {
    if Pow10(n) < U128_BOUND then Some(Pow10(n)) else None
  }

  function Product(a: nat, b: nat): nat { a * b }

  function CheckedMul(a: u128, b: u128): Option<u128> {
    var product := Product(a, b);
    if product < U128_BOUND then Some(product) else None
  }

  function CheckedAdd(a: u128, b: u128): Option<u128> {
    if a + b < U128_BOUND then Some(a + b) else None
  }

  function OrExceeded(v: Option<u128>): Result<u128, MoneyError> {
    if v.Some? then Ok(v.value) else Err(MagnitudeExceeded)
  }

  /** The fraction in minor units, with each overflow check of the source. */
  function PaddedFraction(fraction: bytes, scale: u8): Result<u128, MoneyError>
    requires IsDigits(fraction) && |fraction| <= scale
  {
    if fraction == [] then Ok(0)
    else
      var parsed :- OrExceeded(ParseU128(fraction));
      var padding :- OrExceeded(CheckedPow10(scale - |fraction|));
      OrExceeded(CheckedMul(parsed, padding))
  }

  function CombineUnits(whole: bytes, fraction: bytes, scale: u8): Result<u128, MoneyError>
    requires IsDigits(whole) && IsDigits(fraction) && |fraction| <= scale
  {
    var wholeUnits :- OrExceeded(ParseU128(whole));
    var scaleFactor :- OrExceeded(CheckedPow10(scale));
    var padded :- PaddedFraction(fraction, scale);
    var units :- OrExceeded(CheckedMul(wholeUnits, scaleFactor));
    OrExceeded(CheckedAdd(units, padded))
  }

  predicate AllAscii(s: bytes) { forall i :: 0 <= i < |s| ==> s[i] < 128 }

  function ParseMinorUnits(value: bytes, scale: u8): Result<u128, MoneyError> {
    if value == [] || value[0] == '+' as int || value[0] == '-' as int then Err(NonCanonicalAmount)
    else if !AllAscii(value) then Err(NonCanonicalAmount)
    else
      var dot := FirstDot(value);
      if dot < |value| && (CountDots(value) != 1 || scale == 0 || dot + 1 == |value|) then Err(NonCanonicalAmount)
      else
        var whole := value[..dot];
        var fraction := if dot < |value| then value[dot + 1..] else [];
        if whole == [] || !IsDigits(whole) || !IsDigits(fraction) then Err(NonCanonicalAmount)
        else if |whole| > 1 && whole[0] == '0' as int then Err(NonCanonicalAmount)
        else if |fraction| > scale then Err(ScaleExceeded)
        else CombineUnits(whole, fraction, scale)
  }

  // ----- what the parser accepts

  /** A canonical decimal numeral: digits without a leading zero, then a point and at least one
      digit, or neither. */
  predicate Numeral(value: bytes, whole: bytes, fraction: bytes) {
    && value == whole + (if fraction == [] then [] else [DOT] + fraction)
    && whole != [] && IsDigits(whole) && IsDigits(fraction)
    && (|whole| > 1 ==> whole[0] != '0' as int)
  }

  /** The exact amount in minor units: the digits without the point, scaled up. */
  function MinorUnits(whole: bytes, fraction: bytes, scale: nat): nat
    requires IsDigits(whole) && IsDigits(fraction) && |fraction| <= scale
  {
    assert IsDigits(whole + fraction);
    Product(Value(whole + fraction), Pow10(scale - |fraction|))
  }

  /** The three overflow checks on the fraction never fail when the scale is at most 38. */
  lemma FractionFits(fraction: bytes, scale: u8)
    requires scale <= 38 && IsDigits(fraction) && |fraction| <= scale
    ensures Product(Value(fraction), Pow10(scale - |fraction|)) < Pow10(scale) < U128_BOUND
    ensures PaddedFraction(fraction, scale) == Ok(Product(Value(fraction), Pow10(scale - |fraction|)))
  {
    var n, missing := |fraction|, scale - |fraction|;
    ValueBounded(fraction);
    PowAdd(n, missing);
    MaxScaleFits();
    PowMonotone(scale, 38);
    PowMonotone(n, scale);
    PowMonotone(missing, scale);
    MulLess(Value(fraction), Pow10(n), Pow10(missing));
    if fraction != [] {
      assert ParseU128(fraction) == Some(Value(fraction));
      assert CheckedPow10(missing) == Some(Pow10(missing));
    }
  }

  lemma MulLess(a: nat, b: nat, c: nat)
    requires a < b && c >= 1
    ensures a * c < b * c
  {
  }

  lemma CombineExact(whole: bytes, fraction: bytes, scale: u8)
    requires scale <= 38 && IsDigits(whole) && IsDigits(fraction) && |fraction| <= scale
    ensures CombineUnits(whole, fraction, scale) == (var n := MinorUnits(whole, fraction, scale);
              if n < U128_BOUND then Ok(n) else Err(MagnitudeExceeded))
  {
    var missing := scale - |fraction|;
    FractionFits(fraction, scale);
    UnitsSplit(whole, fraction, scale);
    var w, p := Value(whole), Pow10(scale);
    MulGrows(w, p);
    hide Pow10, Value, PaddedFraction, MinorUnits, Product;
    assert CheckedPow10(scale) == Some(p);
  }

  lemma MulGrows(w: nat, p: nat)
    requires p >= 1
    ensures w <= Product(w, p)
  {
  }

  lemma UnitsSplit(whole: bytes, fraction: bytes, scale: nat)
    requires IsDigits(whole) && IsDigits(fraction) && |fraction| <= scale
    ensures MinorUnits(whole, fraction, scale)
         == Product(Value(whole), Pow10(scale)) + Product(Value(fraction), Pow10(scale - |fraction|))
  {
    var n, missing := |fraction|, scale - |fraction|;
    ValueConcat(whole, fraction);
    PowAdd(n, missing);
    Distribute(Value(whole), Pow10(n), Value(fraction), Pow10(missing));
  }

  lemma Distribute(a: nat, b: nat, c: nat, d: nat)
    ensures (a * b + c) * d == a * (b * d) + c * d
  {
    assert (a * b) * d == a * (b * d);
  }

  lemma {:induction false} DotsIn(s: bytes)
    ensures CountDots(s) == 0 <==> DOT !in s
    ensures CountDots(s) == 1 <==> FirstDot(s) < |s| && DOT !in s[FirstDot(s) + 1..]
  {
    if s != [] {
      DotsIn(s[1..]);
      assert s == [s[0]] + s[1..];
      if s[0] != DOT && FirstDot(s) < |s| { assert s[FirstDot(s) + 1..] == s[1..][FirstDot(s[1..]) + 1..]; }
    }
  }

  lemma {:induction false} FirstDotAt(s: bytes, i: nat)
    requires i <= |s| && DOT !in s[..i] && (i < |s| ==> s[i] == DOT)
    ensures FirstDot(s) == i
  {
    if i > 0 {
      assert s[..i][0] == s[0];
      assert s[1..][..i - 1] == s[..i][1..];
      FirstDotAt(s[1..], i - 1);
    }
  }

  lemma DigitsHaveNoDot(s: bytes)
    requires IsDigits(s)
    ensures DOT !in s && AllAscii(s)
  {
  }

  lemma NumeralSplits(value: bytes, whole: bytes, fraction: bytes)
    requires Numeral(value, whole, fraction)
    ensures FirstDot(value) == |whole| && value[..|whole|] == whole && AllAscii(value)
    ensures if fraction == [] then |whole| == |value| else |whole| < |value| && value[|whole| + 1..] == fraction
    ensures fraction != [] ==> CountDots(value) == 1
    ensures value != [] && value[0] != '+' as int && value[0] != '-' as int
  {
    DigitsHaveNoDot(whole);
    DigitsHaveNoDot(fraction);
    assert value[0] == whole[0];
    assert value[..|whole|] == whole;
    if fraction == [] { assert value == whole; }
    FirstDotAt(value, |whole|);
    if fraction != [] {
      assert value[|whole| + 1..] == fraction;
      DotsIn(value);
    }
  }

  /** Exactly what the parser does on every text: which numerals it takes, with what value, and
      which error each other text gets. */
  lemma ParsesExactly(value: bytes, scale: u8)
    requires scale <= 38
    ensures forall whole, fraction :: Numeral(value, whole, fraction) ==>
              ParseMinorUnits(value, scale) ==
                if fraction != [] && scale == 0 then Err(NonCanonicalAmount)
                else if |fraction| > scale then Err(ScaleExceeded)
                else if MinorUnits(whole, fraction, scale) < U128_BOUND then Ok(MinorUnits(whole, fraction, scale))
                else Err(MagnitudeExceeded)
    ensures (forall whole, fraction :: !Numeral(value, whole, fraction)) ==>
              ParseMinorUnits(value, scale) == Err(NonCanonicalAmount)
  {
    hide MinorUnits, CombineUnits, Value, Pow10, AllAscii;
    forall whole, fraction | Numeral(value, whole, fraction)
      ensures ParseMinorUnits(value, scale) ==
                if fraction != [] && scale == 0 then Err(NonCanonicalAmount)
                else if |fraction| > scale then Err(ScaleExceeded)
                else if MinorUnits(whole, fraction, scale) < U128_BOUND then Ok(MinorUnits(whole, fraction, scale))
                else Err(MagnitudeExceeded)
    {
      NumeralSplits(value, whole, fraction);
      if |fraction| <= scale { CombineExact(whole, fraction, scale); }
    }
    if forall whole, fraction :: !Numeral(value, whole, fraction) { RefusedUnlessNumeral(value, scale); }
  }

  lemma RefusedUnlessNumeral(value: bytes, scale: u8)
    requires forall whole, fraction :: !Numeral(value, whole, fraction)
    ensures ParseMinorUnits(value, scale) == Err(NonCanonicalAmount)
  {
    hide CombineUnits, AllAscii;
    if value != [] {
      var dot := FirstDot(value);
      var whole := value[..dot];
      if dot < |value| {
        assert value == whole + ([DOT] + value[dot + 1..]);
        assert !Numeral(value, whole, value[dot + 1..]);
      } else {
        assert value == whole + [];
        assert !Numeral(value, whole, []);
      }
    }
  }

  /** The parser accepts a text with a value iff it is a canonical decimal numeral with at most
      `scale` fraction digits whose exact amount fits, and the value is that amount. */
  lemma AcceptsIff(value: bytes, scale: u8, n: nat)
    requires scale <= 38
    ensures (ParseMinorUnits(value, scale).Ok? && ParseMinorUnits(value, scale).value == n) <==>
            exists whole, fraction :: Numeral(value, whole, fraction) && |fraction| <= scale
                                      && n == MinorUnits(whole, fraction, scale) && n < U128_BOUND
  {
    hide ParseMinorUnits, Numeral, MinorUnits;
    ParsesExactly(value, scale);
    if exists whole, fraction :: Numeral(value, whole, fraction) {
      var whole, fraction :| Numeral(value, whole, fraction);
      NumeralUnique(value, whole, fraction);
    }
  }

  lemma NumeralUnique(value: bytes, whole: bytes, fraction: bytes)
    requires Numeral(value, whole, fraction)
    ensures IsDigits(whole) && IsDigits(fraction)
    ensures forall w, f :: Numeral(value, w, f) ==> w == whole && f == fraction
  {
    NumeralSplits(value, whole, fraction);
    forall w, f | Numeral(value, w, f) ensures w == whole && f == fraction {
      NumeralSplits(value, w, f);
    }
  }

  // ----- printing

  function Digits(n: nat): (s: bytes)
    ensures s != [] && IsDigits(s)
  {
    if n < 10 then ['0' as int + n] else Digits(n / 10) + ['0' as int + n % 10]
  }

  function FixedDigits(n: nat, width: nat): (s: bytes)
    ensures |s| == width && IsDigits(s)
  {
    if width == 0 then [] else FixedDigits(n / 10, width - 1) + ['0' as int + n % 10]
  }

  /** The canonical text of an amount, with all its fraction digits. */
  function Print(n: nat, scale: nat): bytes {
    var (whole, rest) := Divided(n, Pow10(scale));
    Digits(whole) + (if scale == 0 then [] else [DOT] + FixedDigits(rest, scale))
  }

  function Divided(n: nat, p: nat): (r: (nat, nat))
    requires p >= 1
    ensures n == Product(r.0, p) + r.1 && r.1 < p
  {
    (n / p, n % p)
  }

  lemma {:induction false} DigitsValue(n: nat)
    ensures Value(Digits(n)) == n && (|Digits(n)| > 1 ==> Digits(n)[0] != '0' as int)
    ensures n > 0 ==> Digits(n)[0] != '0' as int
  {
    if n >= 10 {
      DigitsValue(n / 10);
      assert Digits(n)[..|Digits(n)| - 1] == Digits(n / 10);
    } else {
      assert Digits(n)[..0] == [];
    }
  }

  lemma {:induction false} FixedDigitsValue(n: nat, width: nat)
    requires n < Pow10(width)
    ensures Value(FixedDigits(n, width)) == n
  {
    if width > 0 {
      FixedDigitsValue(n / 10, width - 1);
      assert FixedDigits(n, width)[..width - 1] == FixedDigits(n / 10, width - 1);
    }
  }

  /** Printing any 128-bit amount and parsing it back gives the amount. */
  lemma PrintThenParse(n: u128, scale: u8)
    requires scale <= 38
    ensures ParseMinorUnits(Print(n, scale), scale) == Ok(n)
  {
    hide ParseMinorUnits;
    var p := Pow10(scale);
    var (q, rest) := Divided(n, p);
    var whole, fraction := Digits(q), FixedDigits(rest, scale);
    DigitsValue(q);
    FixedDigitsValue(rest, scale);
    assert scale == 0 ==> fraction == [];
    assert Numeral(Print(n, scale), whole, fraction);
    UnitsSplit(whole, fraction, scale);
    hide Numeral, MinorUnits, Value, Digits, FixedDigits, Print, Divided;
    assert Pow10(0) == 1;
    ParsesExactly(Print(n, scale), scale);
  }

  // ----- the registry

  datatype AssetSpec = AssetSpec(
    assetId: RegisteredId, registryVersion: u32, scale: u8, active: bool, maximumMinorUnits: u128)

  datatype MoneyLimit = MoneyLimit(assetId: RegisteredId, registryVersion: u32, minorUnits: u128)

  class AssetRegistry {
    var assets: map<RegisteredId, AssetSpec>

    /** Every stored specification is filed under its own id and passed the insertion checks. */
    ghost predicate Valid()
      reads this
    {
      forall id :: id in assets ==>
        assets[id].assetId == id && assets[id].registryVersion != 0 && assets[id].scale <= 38
    }

    constructor ()
      ensures Valid() && assets == map[]
    {
      assets := map[];
    }

    /** A duplicate is reported, but the new specification has already replaced the old one. */
    method Insert(spec: AssetSpec) returns (r: Result<(), MoneyError>)
      requires Valid()
      modifies this
      ensures Valid()
      ensures r == if spec.registryVersion == 0 || spec.scale > 38 then Err(InvalidAssetSpec)
                   else if spec.assetId in old(assets) then Err(DuplicateAsset) else Ok(())
      ensures assets == if r == Err(InvalidAssetSpec) then old(assets) else old(assets)[spec.assetId := spec]
    {
      if spec.registryVersion == 0 || spec.scale > 38 { return Err(InvalidAssetSpec); }
      var replaced := spec.assetId in assets;
      assets := assets[spec.assetId := spec];
      if replaced { return Err(DuplicateAsset); }
      return Ok(());
    }

    function Get(assetId: RegisteredId): (r: Result<AssetSpec, MoneyError>)
      requires Valid()
      reads this
      ensures r.Ok? <==> assetId in assets && assets[assetId].active
      ensures r.Ok? ==> r.value.assetId == assetId && r.value.scale <= 38
      ensures r.Err? ==> r.error == if assetId in assets then InactiveAsset else UnsupportedAsset
    {
      if assetId !in assets then Err(UnsupportedAsset)
      else if !assets[assetId].active then Err(InactiveAsset)
      else Ok(assets[assetId])
    }

    /** `MoneyLimit::parse`: a limit is the exact amount of a canonical numeral, within the maximum
        of an active asset in the stated version. */
    method ParseLimit(assetId: RegisteredId, registryVersion: u32, wireAmount: bytes)
      returns (r: Result<MoneyLimit, MoneyError>)
      requires Valid()
      ensures r.Ok? <==>
              (&& assetId in assets && assets[assetId].active && assets[assetId].registryVersion == registryVersion
               && exists whole, fraction ::
                    (&& Numeral(wireAmount, whole, fraction) && |fraction| <= assets[assetId].scale
                     && MinorUnits(whole, fraction, assets[assetId].scale) <= assets[assetId].maximumMinorUnits))
      ensures r.Ok? ==>
              (&& r.value.assetId == assetId && r.value.registryVersion == registryVersion
               && exists whole, fraction ::
                    (&& Numeral(wireAmount, whole, fraction) && |fraction| <= assets[assetId].scale
                     && r.value.minorUnits == MinorUnits(whole, fraction, assets[assetId].scale)))
      ensures r.Err? ==>
              r.error == (if Get(assetId).Err? then Get(assetId).error
                          else if assets[assetId].registryVersion != registryVersion then RegistryVersionMismatch
                          else if ParseMinorUnits(wireAmount, assets[assetId].scale).Err? then
                            ParseMinorUnits(wireAmount, assets[assetId].scale).error
                          else MagnitudeExceeded)
    {
      hide ParseMinorUnits, Numeral, MinorUnits;
      var found := Get(assetId);
      if found.Err? { return Err(found.error); }
      var spec := found.value;
      if spec.registryVersion != registryVersion { return Err(RegistryVersionMismatch); }
      var parsed := ParseMinorUnits(wireAmount, spec.scale);
      AcceptsIff(wireAmount, spec.scale, if parsed.Ok? then parsed.value else 0);
      RefusedMeansTooLarge(wireAmount, spec.scale);
      if parsed.Err? { return Err(parsed.error); }
      NumeralsAgree(wireAmount);
      if parsed.value > spec.maximumMinorUnits { return Err(MagnitudeExceeded); }
      return Ok(MoneyLimit(assetId, registryVersion, parsed.value));
    }
  }

  lemma RefusedMeansTooLarge(value: bytes, scale: u8)
    requires scale <= 38
    ensures ParseMinorUnits(value, scale).Err? ==>
              forall whole, fraction :: Numeral(value, whole, fraction) && |fraction| <= scale ==>
                MinorUnits(whole, fraction, scale) >= U128_BOUND
  {
    hide ParseMinorUnits, MinorUnits;
    ParsesExactly(value, scale);
  }

  lemma NumeralsAgree(value: bytes)
    ensures forall w, f, w', f' :: Numeral(value, w, f) && Numeral(value, w', f') ==> w == w' && f == f'
  {
    forall w, f, w', f' | Numeral(value, w, f) && Numeral(value, w', f') ensures w == w' && f == f' {
      NumeralSplits(value, w, f);
      NumeralSplits(value, w', f');
    }
  }
}
