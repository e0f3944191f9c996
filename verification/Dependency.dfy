/** Authority dependencies and their canonical bundle (dependency.rs). */
module Dependency {
  import opened Bytes
  import opened Order
  import opened Wrappers

  datatype DependencyType =
    PolicyBinding | EntitlementBinding | DelegationDependency | GuardianRelationship | ElevationGrant
    | ExternalStateAssertion | ExternalTrustFact | ExternalRevocationWatermark

  function TypeCode(t: DependencyType): (c: byte)
    ensures 1 <= c <= 8
  {
    match t
    case PolicyBinding => 1
    case EntitlementBinding => 2
    case DelegationDependency => 3
    case GuardianRelationship => 4
    case ElevationGrant => 5
    case ExternalStateAssertion => 6
    case ExternalTrustFact => 7
    case ExternalRevocationWatermark => 8
  }

  datatype AuthorityStatus = Active | Suspended | Revoked | Expired

  function StatusCode(s: AuthorityStatus): (c: byte)
    ensures 1 <= c <= 4
  {
    match s
    case Active => 1
    case Suspended => 2
    case Revoked => 3
    case Expired => 4
  }

  datatype DependencyRef = DependencyRef(
    kind: DependencyType,
    id: StableId,
    organizationId: Option<StableId>,
    expectedGeneration: Option<i64>,
    expectedDigest: Option<SemanticDigest>,
    expectedStatus: Option<AuthorityStatus>)

  datatype DependencyKey = DependencyKey(kind: DependencyType, organizationId: Option<StableId>, id: StableId)

  function KeyOf(d: DependencyRef): DependencyKey {
    DependencyKey(d.kind, d.organizationId, d.id)
  }

  predicate Negative(d: DependencyRef) {
    d.expectedGeneration.Some? && d.expectedGeneration.value < 0
  }

  /** The derived order of the key tuple: kind, then organization (none first), then id. */
  predicate OptionLess(a: Option<StableId>, b: Option<StableId>) {
    b.Some? && (a.None? || LexLess(a.value, b.value))
  }

  predicate KeyLess(a: DependencyKey, b: DependencyKey) {
    || TypeCode(a.kind) < TypeCode(b.kind)
    || (a.kind == b.kind && OptionLess(a.organizationId, b.organizationId))
    || (a.kind == b.kind && a.organizationId == b.organizationId && LexLess(a.id, b.id))
  }

  lemma KeyStrictTotal()
    ensures StrictTotal(KeyLess)
  {
    hide LexLess;
    LexStrictTotal();
    forall a, b ensures a == b || KeyLess(a, b) || KeyLess(b, a) {
      if a.kind == b.kind && a.organizationId.Some? && b.organizationId.Some? {
        assert a.organizationId.value == b.organizationId.value || LexLess(a.organizationId.value, b.organizationId.value)
            || LexLess(b.organizationId.value, a.organizationId.value);
      }
      assert a.id == b.id || LexLess(a.id, b.id) || LexLess(b.id, a.id);
    }
  }

  // ----- encoding of one record

  function EncodeOptional(v: Option<bytes>): bytes {
    if v.Some? then [1] + v.value else [0]
  }

  function GenerationBytes(g: Option<i64>): bytes {
    if g.Some? then [1] + I64(g.value) else [0]
  }

  function StatusBytes(s: Option<AuthorityStatus>): bytes {
    if s.Some? then [1, StatusCode(s.value)] else [0]
  }

  function Encode(d: DependencyRef): bytes {
    [TypeCode(d.kind)] + (d.id + (EncodeOptional(d.organizationId) + (GenerationBytes(d.expectedGeneration)
      + (EncodeOptional(d.expectedDigest) + StatusBytes(d.expectedStatus)))))
  }

  lemma EncodeLength(d: DependencyRef)
    ensures |Encode(d)| <= 79
  {
  }

  lemma CancelOptional(a: Option<bytes>, x: bytes, b: Option<bytes>, y: bytes)
    requires a.Some? && b.Some? ==> |a.value| == |b.value|
    requires EncodeOptional(a) + x == EncodeOptional(b) + y
    ensures a == b && x == y
  {
    assert (EncodeOptional(a) + x)[0] == (EncodeOptional(b) + y)[0];
    CancelFixed(EncodeOptional(a), x, EncodeOptional(b), y);
    if a.Some? { CancelFixed([1], a.value, [1], b.value); }
  }

  lemma CancelGeneration(a: Option<i64>, x: bytes, b: Option<i64>, y: bytes)
    requires GenerationBytes(a) + x == GenerationBytes(b) + y
    ensures a == b && x == y
  {
    assert (GenerationBytes(a) + x)[0] == (GenerationBytes(b) + y)[0];
    CancelFixed(GenerationBytes(a), x, GenerationBytes(b), y);
    if a.Some? {
      CancelFixed([1], I64(a.value), [1], I64(b.value));
      I64Injective(a.value, b.value);
    }
  }

  /** A record can be read back from its bytes. */
  lemma EncodeInjective(a: DependencyRef, b: DependencyRef)
    requires Encode(a) == Encode(b)
    ensures a == b
  {
    hide EncodeOptional, GenerationBytes, I64, StatusBytes;
    var a5, b5 := StatusBytes(a.expectedStatus), StatusBytes(b.expectedStatus);
    var a4, b4 := EncodeOptional(a.expectedDigest) + a5, EncodeOptional(b.expectedDigest) + b5;
    var a3, b3 := GenerationBytes(a.expectedGeneration) + a4, GenerationBytes(b.expectedGeneration) + b4;
    var a2, b2 := EncodeOptional(a.organizationId) + a3, EncodeOptional(b.organizationId) + b3;
    CancelFixed([TypeCode(a.kind)], a.id + a2, [TypeCode(b.kind)], b.id + b2);
    CancelFixed(a.id, a2, b.id, b2);
    CancelOptional(a.organizationId, a3, b.organizationId, b3);
    CancelGeneration(a.expectedGeneration, a4, b.expectedGeneration, b4);
    CancelOptional(a.expectedDigest, a5, b.expectedDigest, b5);
    StatusInjective(a.expectedStatus, b.expectedStatus);
    TypeInjective(a.kind, b.kind);
  }

  lemma TypeInjective(a: DependencyType, b: DependencyType)
    ensures [TypeCode(a)] == [TypeCode(b)] ==> a == b
  {
    assert [TypeCode(a)][0] == TypeCode(a) && [TypeCode(b)][0] == TypeCode(b);
  }

  lemma StatusInjective(a: Option<AuthorityStatus>, b: Option<AuthorityStatus>)
    ensures StatusBytes(a) == StatusBytes(b) ==> a == b
  {
    if StatusBytes(a) == StatusBytes(b) && a.Some? && b.Some? {
      assert StatusBytes(a)[1] == StatusBytes(b)[1];
    }
  }

  // ----- the canonical bundle

  datatype DependencyError = NegativeGeneration | ConflictingDuplicate

  datatype Bundle = Bundle(dependencies: seq<DependencyRef>, canonicalBytes: bytes, digest: SemanticDigest)

  type BundleResult = Result<Bundle, DependencyError>

  type Unique = map<DependencyKey, DependencyRef>

  function EncodeRecords(ds: seq<DependencyRef>): bytes {
    if ds == [] then [] else Framed(Encode(ds[0])) + EncodeRecords(ds[1..])
  }

  function CanonicalBytes(ds: seq<DependencyRef>): bytes {
    U32(|ds|) + EncodeRecords(ds)
  }

  const DEPENDENCY_DOMAIN := "ANAR-AUTHORITY-DEPENDENCY-BUNDLE-1"

  function KeySet(ds: seq<DependencyRef>): set<DependencyKey> {
    set d | d in ds :: KeyOf(d)
  }

  /** The record filed under each key. */
  function Filed(ds: seq<DependencyRef>): (m: Unique)
    requires Consistent(ds)
    ensures m.Keys == KeySet(ds) && forall d :: d in ds ==> m[KeyOf(d)] == d
  {
    SameKeySameRecord(ds);
    map d | d in ds :: KeyOf(d) := d
  }

  lemma SameKeySameRecord(ds: seq<DependencyRef>)
    requires Consistent(ds)
    ensures forall d, e :: d in ds && e in ds && KeyOf(d) == KeyOf(e) ==> d == e
  {
    forall d, e | d in ds && e in ds && KeyOf(d) == KeyOf(e) ensures d == e {
      var i :| 0 <= i < |ds| && ds[i] == d;
      var j :| 0 <= j < |ds| && ds[j] == e;
    }
  }

  /** No negative generation, and equal keys mean equal records. */
  predicate Consistent(ds: seq<DependencyRef>) {
    && (forall i :: 0 <= i < |ds| ==> !Negative(ds[i]))
    && (forall i, j :: 0 <= i < |ds| && 0 <= j < |ds| && KeyOf(ds[i]) == KeyOf(ds[j]) ==> ds[i] == ds[j])
  }

  function SortedKeys(keys: set<DependencyKey>): (r: seq<DependencyKey>)
    ensures StrictlySorted(KeyLess, r) && Elements(r) == keys && |r| == |keys|
  {
    KeyStrictTotal();
    Sorted(KeyLess, keys)
  }

  function Values(m: Unique, keys: seq<DependencyKey>): (r: seq<DependencyRef>)
    requires forall k :: k in keys ==> k in m
    ensures |r| == |keys| && forall i :: 0 <= i < |keys| ==> r[i] == m[keys[i]]
  {
    seq(|keys|, i requires 0 <= i < |keys| => assert keys[i] in keys; m[keys[i]])
  }

  /** The order in which the map hands out its records. */
  function Canonical(ds: seq<DependencyRef>): (r: seq<DependencyRef>)
    requires Consistent(ds)
  {
    var keys := SortedKeys(KeySet(ds));
    assert forall k :: k in keys ==> k in Elements(keys);
    Values(Filed(ds), keys)
  }

  function MakeBundle(sha: Sha256, ds: seq<DependencyRef>): Bundle {
    Bundle(ds, CanonicalBytes(ds), DomainHash(sha, DEPENDENCY_DOMAIN, CanonicalBytes(ds)))
  }

  /** The first record, in input order, that `canonicalize` refuses. */
  function FirstError(ds: seq<DependencyRef>, n: nat): Option<DependencyError>
    requires n <= |ds|
  {
    if n == 0 then None
    else
      var before := FirstError(ds, n - 1);
      if before.Some? then before
      else if Negative(ds[n - 1]) then Some(NegativeGeneration)
      else if exists j :: 0 <= j < n - 1 && KeyOf(ds[j]) == KeyOf(ds[n - 1]) && ds[j] != ds[n - 1] then Some(ConflictingDuplicate)
      else None
  }

  lemma {:induction false} NoErrorIffConsistent(ds: seq<DependencyRef>, n: nat)
    requires n <= |ds|
    ensures FirstError(ds, n) == None <==> Consistent(ds[..n])
  {
    if n > 0 {
      NoErrorIffConsistent(ds, n - 1);
      var p, q := ds[..n - 1], ds[..n];
      assert forall i :: 0 <= i < n - 1 ==> p[i] == q[i];
      assert q[n - 1] == ds[n - 1];
      if Consistent(q) { assert Consistent(p); }
    }
  }

  function Canonicalized(sha: Sha256, ds: seq<DependencyRef>): BundleResult {
    var e := FirstError(ds, |ds|);
    if e.Some? then Err(e.value)
    else
      NoErrorIffConsistent(ds, |ds|);
      assert ds[..|ds|] == ds;
      Ok(MakeBundle(sha, Canonical(ds)))
  }

  /** `DependencyBundle::canonicalize` */
  method Canonicalize(sha: Sha256, ds: seq<DependencyRef>) returns (r: BundleResult)
    ensures r == Canonicalized(sha, ds)
  {
    hide MakeBundle, Consistent, FirstError, KeySet, CanonicalBytes, DomainHash, KeyLess;
    var error, unique := CollectUnique(ds);
    if error.Some? {
      return Err(error.value);
    }
    NoErrorIffConsistent(ds, |ds|);
    assert ds[..|ds|] == ds;
    var keys := SortedKeys(unique.Keys);
    assert forall k :: k in keys ==> k in Elements(keys);
    var dependencies := Values(unique, keys);
    var canonicalBytes := EncodeAll(dependencies);
    MakeBundleIs(sha, dependencies);
    return Ok(Bundle(dependencies, canonicalBytes, DomainHash(sha, DEPENDENCY_DOMAIN, canonicalBytes)));
  }

  /** The first loop of `canonicalize`: the map of records, or the first refusal. */
  method CollectUnique(ds: seq<DependencyRef>) returns (error: Option<DependencyError>, unique: Unique)
    ensures error == FirstError(ds, |ds|)
    ensures error == None ==> Consistent(ds) && unique == Filed(ds)
  {
    hide Consistent, Filed, FirstError, KeyOf;
    error, unique := None, map[];
    NothingFiled(ds);
    for n := 0 to |ds|
      invariant Consistent(ds[..n]) && FirstError(ds, n) == None && error == None
      invariant unique == Filed(ds[..n])
    {
      var dependency := ds[n];
      assert ds[..n + 1] == ds[..n] + [dependency];
      if Negative(dependency) {
        Refused(ds, n);
        FirstErrorStops(ds, n + 1);
        return Some(NegativeGeneration), unique;
      }
      var key := KeyOf(dependency);
      FiledAt(ds[..n], key);
      if key in unique {
        if unique[key] != dependency {
          Conflict(ds, n, unique[key]);
          FirstErrorStops(ds, n + 1);
          return Some(ConflictingDuplicate), unique;
        }
      } else {
        unique := unique[key := dependency];
      }
      NoConflict(ds, n);
      FiledExtend(ds[..n], dependency);
    }
    assert ds[..|ds|] == ds;
  }

  lemma NothingFiled(ds: seq<DependencyRef>)
    ensures Consistent(ds[..0]) && FirstError(ds, 0) == None && Filed(ds[..0]) == map[]
  {
  }

  lemma Refused(ds: seq<DependencyRef>, n: nat)
    requires n < |ds| && FirstError(ds, n) == None && Negative(ds[n])
    ensures FirstError(ds, n + 1) == Some(NegativeGeneration)
  {
  }

  lemma FiledAt(ds: seq<DependencyRef>, key: DependencyKey)
    requires Consistent(ds)
    ensures key in Filed(ds) ==> Filed(ds)[key] in ds && KeyOf(Filed(ds)[key]) == key
  {
    if key in Filed(ds) {
      var d :| d in ds && KeyOf(d) == key;
    }
  }

  lemma Conflict(ds: seq<DependencyRef>, n: nat, d: DependencyRef)
    requires n < |ds| && d in ds[..n] && KeyOf(d) == KeyOf(ds[n]) && d != ds[n] && !Negative(ds[n])
    requires FirstError(ds, n) == None
    ensures FirstError(ds, n + 1) == Some(ConflictingDuplicate)
  {
    var j :| 0 <= j < n && ds[..n][j] == d;
    assert ds[j] == d;
  }

  lemma FiledAlike(ds: seq<DependencyRef>, n: nat, j: nat)
    requires j < n < |ds| && Consistent(ds[..n]) && KeyOf(ds[j]) == KeyOf(ds[n])
    requires KeyOf(ds[n]) in Filed(ds[..n]) ==> Filed(ds[..n])[KeyOf(ds[n])] == ds[n]
    ensures ds[j] == ds[n]
  {
    hide Consistent, Filed;
    assert ds[..n][j] == ds[j] && ds[j] in ds[..n];
  }

  lemma NoConflict(ds: seq<DependencyRef>, n: nat)
    requires n < |ds| && Consistent(ds[..n]) && FirstError(ds, n) == None && !Negative(ds[n])
    requires KeyOf(ds[n]) in Filed(ds[..n]) ==> Filed(ds[..n])[KeyOf(ds[n])] == ds[n]
    ensures FirstError(ds, n + 1) == None && Consistent(ds[..n] + [ds[n]])
  {
    hide Consistent, Filed;
    forall j | 0 <= j < n && KeyOf(ds[j]) == KeyOf(ds[n]) ensures ds[j] == ds[n] { FiledAlike(ds, n, j); }
    NoErrorIffConsistent(ds, n + 1);
    assert ds[..n + 1] == ds[..n] + [ds[n]];
  }

  lemma FiledExtend(ds: seq<DependencyRef>, d: DependencyRef)
    requires Consistent(ds) && Consistent(ds + [d])
    ensures Filed(ds + [d]) == if KeyOf(d) in Filed(ds) then Filed(ds) else Filed(ds)[KeyOf(d) := d]
  {
    hide Consistent;
    var all := ds + [d];
    assert forall e :: e in all <==> e in ds || e == d;
    FiledAt(ds, KeyOf(d));
    forall k | k in Filed(ds) ensures k in Filed(all) && Filed(all)[k] == Filed(ds)[k] {
      FiledAt(ds, k);
    }
  }

  /** The second loop of `canonicalize`. */
  method EncodeAll(dependencies: seq<DependencyRef>) returns (canonicalBytes: bytes)
    ensures canonicalBytes == CanonicalBytes(dependencies)
  {
    hide Encode, U32;
    canonicalBytes := U32(|dependencies|);
    for i := 0 to |dependencies|
      invariant canonicalBytes + EncodeRecords(dependencies[i..]) == CanonicalBytes(dependencies)
    {
      ghost var before, rest := canonicalBytes, EncodeRecords(dependencies[i + 1..]);
      var record := Encode(dependencies[i]);
      canonicalBytes := canonicalBytes + U32(|record|) + record;
      assert canonicalBytes + rest == before + (Framed(record) + rest);
      assert dependencies[i..][1..] == dependencies[i + 1..];
    }
  }

  lemma MakeBundleIs(sha: Sha256, ds: seq<DependencyRef>)
    ensures MakeBundle(sha, ds) == Bundle(ds, CanonicalBytes(ds), DomainHash(sha, DEPENDENCY_DOMAIN, CanonicalBytes(ds)))
  {
  }

  lemma {:induction false} FirstErrorStops(ds: seq<DependencyRef>, n: nat)
    requires n <= |ds| && FirstError(ds, n).Some?
    ensures FirstError(ds, |ds|) == FirstError(ds, n)
    decreases |ds| - n
  {
    if n < |ds| { FirstErrorStops(ds, n + 1); }
  }

  // ----- main results

  /** `canonicalize` succeeds iff no generation is negative and equal keys mean equal records. */
  lemma SucceedsIffConsistent(sha: Sha256, ds: seq<DependencyRef>)
    ensures Canonicalized(sha, ds).Ok? <==> Consistent(ds)
  {
    NoErrorIffConsistent(ds, |ds|);
    assert ds[..|ds|] == ds;
  }

  lemma KeysAre(ds: seq<DependencyRef>)
    ensures forall k :: k in KeySet(ds) <==> exists d :: d in ds && KeyOf(d) == k
    ensures Consistent(ds) ==> forall k :: k in Filed(ds) <==> k in KeySet(ds)
  {
  }

  /** The bundle holds exactly the given records, strictly sorted by key. */
  lemma CanonicalHolds(ds: seq<DependencyRef>)
    requires Consistent(ds)
    ensures Elements(Canonical(ds)) == Elements(ds)
    ensures forall i, j :: 0 <= i < j < |Canonical(ds)| ==> KeyLess(KeyOf(Canonical(ds)[i]), KeyOf(Canonical(ds)[j]))
  {
    hide Consistent, KeyLess, Filed, KeySet;
    KeysAre(ds);
    var keys, r := SortedKeys(KeySet(ds)), Canonical(ds);
    forall i | 0 <= i < |r| ensures r[i] in ds && KeyOf(r[i]) == keys[i] {
      assert keys[i] in Elements(keys);
      FiledAt(ds, keys[i]);
    }
    forall d | d in ds ensures d in r {
      assert KeyOf(d) in Elements(keys);
      var i :| 0 <= i < |keys| && keys[i] == KeyOf(d);
      assert r[i] == d;
    }
  }

  lemma ConsistentDependsOnElements(a: seq<DependencyRef>, b: seq<DependencyRef>)
    requires Elements(a) == Elements(b) && Consistent(a)
    ensures Consistent(b)
  {
    forall i | 0 <= i < |b| ensures b[i] in a && !Negative(b[i]) {
      assert b[i] in Elements(a);
      var k :| 0 <= k < |a| && a[k] == b[i];
    }
    forall i, j | 0 <= i < |b| && 0 <= j < |b| && KeyOf(b[i]) == KeyOf(b[j]) ensures b[i] == b[j] {
      assert b[i] in Elements(a) && b[j] in Elements(a);
      var k :| 0 <= k < |a| && a[k] == b[i];
      var l :| 0 <= l < |a| && a[l] == b[j];
    }
  }

  /** Order and exact repetition of the input do not matter. */
  lemma CanonicalDependsOnElements(a: seq<DependencyRef>, b: seq<DependencyRef>)
    requires Elements(a) == Elements(b) && Consistent(a)
    ensures Consistent(b) && Canonical(a) == Canonical(b)
  {
    ConsistentDependsOnElements(a, b);
    assert KeySet(a) == KeySet(b) by {
      assert forall d :: d in a <==> d in Elements(a);
      assert forall d :: d in b <==> d in Elements(b);
    }
    assert Filed(a) == Filed(b) by {
      forall k | k in KeySet(a) ensures Filed(a)[k] == Filed(b)[k] {
        var d :| d in a && KeyOf(d) == k;
        assert d in Elements(b);
      }
    }
  }

  /** The same holds of the whole outcome, up to which of the two errors is reported first. */
  lemma OutcomeDependsOnElements(sha: Sha256, a: seq<DependencyRef>, b: seq<DependencyRef>)
    requires Elements(a) == Elements(b)
    ensures Canonicalized(sha, a).Ok? == Canonicalized(sha, b).Ok?
    ensures Canonicalized(sha, a).Ok? ==> Canonicalized(sha, a) == Canonicalized(sha, b)
  {
    hide MakeBundle;
    SucceedsIffConsistent(sha, a);
    SucceedsIffConsistent(sha, b);
    if Consistent(a) {
      CanonicalDependsOnElements(a, b);
    } else if Consistent(b) {
      CanonicalDependsOnElements(b, a);
    }
  }

  lemma {:induction false} RecordsInjective(a: seq<DependencyRef>, b: seq<DependencyRef>)
    requires |a| == |b| && EncodeRecords(a) == EncodeRecords(b)
    ensures a == b
  {
    hide Encode;
    if a != [] {
      EncodeLength(a[0]);
      EncodeLength(b[0]);
      CancelFramed(Encode(a[0]), EncodeRecords(a[1..]), Encode(b[0]), EncodeRecords(b[1..]));
      EncodeInjective(a[0], b[0]);
      RecordsInjective(a[1..], b[1..]);
      assert a == [a[0]] + a[1..] && b == [b[0]] + b[1..];
    }
  }

  /** Below 2^32 entries the bytes of a bundle determine its records: two accepted inputs
      have equal bytes iff they are equal as sets. */
  lemma BytesAreTheSet(a: seq<DependencyRef>, b: seq<DependencyRef>)
    requires Consistent(a) && Consistent(b)
    requires |Canonical(a)| < U32_BOUND && |Canonical(b)| < U32_BOUND
    ensures CanonicalBytes(Canonical(a)) == CanonicalBytes(Canonical(b)) <==> Elements(a) == Elements(b)
  {
    var x, y := Canonical(a), Canonical(b);
    CanonicalHolds(a);
    CanonicalHolds(b);
    if CanonicalBytes(x) == CanonicalBytes(y) {
      CancelU32(|x|, EncodeRecords(x), |y|, EncodeRecords(y));
      RecordsInjective(x, y);
    }
    if Elements(a) == Elements(b) {
      CanonicalDependsOnElements(a, b);
    }
  }
}
