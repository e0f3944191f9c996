/** Tables of revocable rows: the shape every token, session and handoff table of the predecessor
    store shares (store.py), with the statements that change them. */
module StoreTables {
  import opened Wrappers

  type Id = string
  type Digest = string
  type Time = real

  datatype Status = Active | Consumed | Revoked

  datatype AuthorityError =
    Unauthorized | SessionExpired | RevisionStale | IntegrityFailure | EmailUnavailable | InvalidArgument
    | Unavailable | AlreadyConsumed | AlreadyRevoked | Expired | CredentialUnavailable | PasswordRefused
    | CurrentPasswordInvalid | PasswordUnchanged | EmailUnchanged | StepUpRequired | UnsupportedPurpose
    | AccountMismatch | OwnerMismatch | PurposeMismatch | FactorRequired | FactorMismatch | FactorExists
    | FactorUnavailable | ScopeRequired | RoleRequired | PolicyRequired
    | EntitlementRequired | OperationRequired | OperationMismatch | MembershipExists | MembershipRequired
    | TenantRequired | SessionUnavailable | SessionInactive | GraphUnavailable | ParentInactive | GraphMismatch
    | GraphInactive | MembershipInactive | MembershipMismatch | AuthorizationStale | EntitlementStale
    | RoleInactive | EntitlementInactive | BindingInactive | UnsupportedConsumer | ConsumerMismatch | SourceInactive | SourceMismatch

  type Refusable<+T> = Result<T, AuthorityError>

  function Check(condition: bool, error: AuthorityError): Refusable<()> {
    if condition then Ok(()) else Err(error)
  }

  /** A row with a digest of its secret, its account, its two end timestamps and its own columns. */
  datatype Row<+X> = Row(
    digest: Digest, account: Id, expiresAt: Option<Time>, consumedAt: Option<Time>, revokedAt: Option<Time>,
    status: Status, detail: X)

  function NewRow<X>(digest: Digest, account: Id, expiresAt: Option<Time>, detail: X): Row<X> {
    Row(digest, account, expiresAt, None, None, Active, detail)
  }

  /** The UNIQUE constraint on the digest column. */
  predicate UniqueDigests<X>(t: map<Id, Row<X>>) {
    forall i, j :: i in t && j in t && t[i].digest == t[j].digest ==> i == j
  }

  type Table<!X> = t: map<Id, Row<X>> | UniqueDigests(t) witness map[]

  /** The guard of the UPDATE statements that consume or revoke. */
  predicate Live<X>(r: Row<X>) { r.status == Active && r.consumedAt.None? && r.revokedAt.None? }

  predicate Past<X>(r: Row<X>, now: Time) { r.expiresAt.Some? && r.expiresAt.value <= now }

  /** SELECT by digest. */
  function Lookup<X>(t: Table<X>, digest: Digest): (r: Option<Id>)
    ensures r.Some? ==> r.value in t && t[r.value].digest == digest
    ensures r.None? ==> forall id :: id in t ==> t[id].digest != digest
  {
    if exists id :: id in t && t[id].digest == digest then
      var id :| id in t && t[id].digest == digest;
      Some(id)
    else None
  }

  /** INSERT, refused when the id or the digest is taken. */
  function Insert<X>(t: Table<X>, id: Id, row: Row<X>): (r: Result<Table<X>, AuthorityError>)
    ensures r.Ok? <==> id !in t && Lookup(t, row.digest).None?
    ensures r.Ok? ==> r.value == t[id := row]
  {
    if id in t || Lookup(t, row.digest).Some? then Err(IntegrityFailure)
    else
      var u := t[id := row];
      assert UniqueDigests(u);
      Ok(u)
  }

  function Consume<X>(t: Table<X>, id: Id, now: Time): (u: Table<X>)
    requires id in t && Live(t[id])
    ensures u == t[id := t[id].(status := Consumed, consumedAt := Some(now))]
  {
    var u := t[id := t[id].(status := Consumed, consumedAt := Some(now))];
    assert forall i :: i in t ==> u[i].digest == t[i].digest;
    assert UniqueDigests(u);
    u
  }

  function RevokedRow<X>(r: Row<X>, now: Time): Row<X> { r.(status := Revoked, revokedAt := Some(now)) }

  /** UPDATE ... SET status = 'revoked' on the live rows among the given ids. */
  function RevokeLive<X>(t: Table<X>, ids: set<Id>, now: Time): (u: Table<X>)
    ensures u.Keys == t.Keys
    ensures forall id :: id in t ==> u[id] == if id in ids && Live(t[id]) then RevokedRow(t[id], now) else t[id]
  {
    var u := map id | id in t :: if id in ids && Live(t[id]) then RevokedRow(t[id], now) else t[id];
    assert forall i :: i in t ==> u[i].digest == t[i].digest;
    assert UniqueDigests(u);
    u
  }

  /** The same statement where only the status column is tested. */
  function RevokeActive<X>(t: Table<X>, ids: set<Id>, now: Time): (u: Table<X>)
    ensures u.Keys == t.Keys
    ensures forall id :: id in t ==> u[id] == if id in ids && t[id].status == Active then RevokedRow(t[id], now) else t[id]
  {
    var u := map id | id in t :: if id in ids && t[id].status == Active then RevokedRow(t[id], now) else t[id];
    assert forall i :: i in t ==> u[i].digest == t[i].digest;
    assert UniqueDigests(u);
    u
  }

  function OfAccount<X>(t: Table<X>, account: Id): (ids: set<Id>)
    ensures forall id :: id in ids <==> id in t && t[id].account == account
  {
    set id | id in t && t[id].account == account
  }

  function RevokedAmong<X>(t: Table<X>, ids: set<Id>): (r: set<Id>)
    ensures forall id :: id in r <==> id in ids && id in t && t[id].status == Revoked
  {
    set id | id in ids && id in t && t[id].status == Revoked
  }

  /** The checks every single-use token passes, in the order the source makes them. */
  function Usable<X>(t: Table<X>, digest: Digest, now: Time): (r: Result<Id, AuthorityError>)
    ensures r.Ok? ==> r.value in t && t[r.value].digest == digest && Live(t[r.value]) && !Past(t[r.value], now)
  {
    var found := Lookup(t, digest);
    if found.None? then Err(Unavailable)
    else
      var row := t[found.value];
      if row.status != Active then Err(Unavailable)
      else if row.consumedAt.Some? then Err(AlreadyConsumed)
      else if row.revokedAt.Some? then Err(AlreadyRevoked)
      else if Past(row, now) then Err(Expired)
      else Ok(found.value)
  }

  // ----- what the statements keep

  /** Status and timestamps tell the same story. */
  predicate Consistent<X>(r: Row<X>) {
    match r.status
    case Active => r.consumedAt.None? && r.revokedAt.None?
    case Consumed => r.consumedAt.Some? && r.revokedAt.None?
    case Revoked => r.consumedAt.None? && r.revokedAt.Some?
  }

  ghost predicate AllConsistent<X>(t: map<Id, Row<X>>) {
    forall id :: id in t ==> Consistent(t[id])
  }

  /** A row only ever leaves `Active`, once, and keeps all its other columns. */
  predicate RowOneWay<X(==)>(a: Row<X>, b: Row<X>) {
    && a.digest == b.digest && a.account == b.account && a.expiresAt == b.expiresAt && a.detail == b.detail
    && (a.status != Active ==> a == b)
  }

  ghost predicate OneWay<X>(t: map<Id, Row<X>>, u: map<Id, Row<X>>) {
    forall id :: id in t ==> id in u && RowOneWay(t[id], u[id])
  }

  lemma OneWayTransitive<X>(t: map<Id, Row<X>>, u: map<Id, Row<X>>, v: map<Id, Row<X>>)
    requires OneWay(t, u) && OneWay(u, v)
    ensures OneWay(t, v)
  {
    forall id | id in t ensures id in v && RowOneWay(t[id], v[id]) {
      assert RowOneWay(t[id], u[id]) && RowOneWay(u[id], v[id]);
    }
  }

  /** At most one active row per account. */
  ghost predicate SingleActive<X>(t: map<Id, Row<X>>) {
    forall i, j :: i in t && j in t && t[i].status == t[j].status == Active && t[i].account == t[j].account ==> i == j
  }

  /** Revoking an account's live rows and inserting one leaves exactly that one active. */
  lemma ReplaceKeepsSingle<X>(t: Table<X>, id: Id, row: Row<X>, now: Time)
    requires AllConsistent(t) && SingleActive(t)
    requires Insert(RevokeLive(t, OfAccount(t, row.account), now), id, row).Ok?
    ensures SingleActive(Insert(RevokeLive(t, OfAccount(t, row.account), now), id, row).value)
  {
    hide UniqueDigests;
    var u := RevokeLive(t, OfAccount(t, row.account), now);
    forall i | i in u && u[i].account == row.account ensures u[i].status != Active {
      assert Consistent(t[i]);
    }
  }
}
