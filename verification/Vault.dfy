/** Rotation of leased database credentials (vault.rs). */
module Vault {
  import opened Bytes
  import opened Wrappers

  type u64 = v: int | 0 <= v < U64_BOUND

  datatype Credential = Credential(
    username: bytes, password: bytes, leaseId: bytes, renewable: bool,
    acquiredAtEpochMs: i64, rotateAfterEpochMs: i64, hardExpiryEpochMs: i64)

  datatype HealthState = Ready | Degraded | Draining | NotReady
  datatype PoolState = PoolActive | PoolDraining | PoolClosed

  datatype Generation = Generation(
    generationId: u64, leaseId: bytes, renewable: bool, activatedAtEpochMs: i64, rotateAfterEpochMs: i64,
    hardExpiryEpochMs: i64, state: PoolState)

  datatype RiskAdmission = RejectedUnavailable | RejectedDeadline

  datatype ConnectionLease = ConnectionLease(
    generationId: u64, leaseId: bytes, credentialHardExpiryEpochMs: i64, operationDeadlineEpochMs: i64)

  datatype VaultError =
    InvalidCredential | CredentialOutsideValidity | GenerationAlreadyActive | GenerationExhausted | InvalidSafetyMargin

  /** `validate`. */
  predicate CredentialValid(c: Credential) {
    && c.username != [] && c.leaseId != [] && c.password != []
    && c.acquiredAtEpochMs < c.rotateAfterEpochMs < c.hardExpiryEpochMs
  }

  function Clamp(v: int): (r: i64)
    ensures v <= I64_MIN ==> r == I64_MIN
    ensures v >= I64_MAX ==> r == I64_MAX
    ensures I64_MIN <= v <= I64_MAX ==> r == v
  {
    if v < I64_MIN then I64_MIN else if v > I64_MAX then I64_MAX else v
  }

  function SaturatingSub(a: i64, b: i64): i64 { Clamp(a - b) }

  function SaturatingAdd(a: i64, b: i64): i64 { Clamp(a + b) }

  function Min(a: i64, b: i64): i64 { if a <= b then a else b }

  // ----- the supervisor as a value

  datatype Supervisor = Supervisor(
    active: Option<Generation>, draining: seq<Generation>, health: HealthState, nextGeneration: u64, safetyMargin: i64)

  datatype Call =
    ActivateInitial(credential: Credential, now: i64)
    | RotationSucceeded(credential: Credential, now: i64)
    | RotationFailed(now: i64)
    | HardDrain(now: i64)

  /** The first check that refuses to build a generation. */
  function GenerationError(s: Supervisor, c: Credential, now: i64): Option<VaultError> {
    if !CredentialValid(c) then Some(InvalidCredential)
    else if now < c.acquiredAtEpochMs || now >= c.hardExpiryEpochMs then Some(CredentialOutsideValidity)
    else if s.nextGeneration + 1 >= U64_BOUND then Some(GenerationExhausted)
    else None
  }

  function NewGeneration(s: Supervisor, c: Credential, now: i64): Generation {
    Generation(s.nextGeneration, c.leaseId, c.renewable, now, c.rotateAfterEpochMs, c.hardExpiryEpochMs, PoolActive)
  }

  function Retired(active: Option<Generation>, state: PoolState): seq<Generation> {
    if active.Some? then [active.value.(state := state)] else []
  }

  /** The new generation takes over; the one it replaces, if any, starts to drain. */
  function Activated(s: Supervisor, c: Credential, now: i64): Supervisor
    requires s.nextGeneration + 1 < U64_BOUND
  {
    s.(active := Some(NewGeneration(s, c, now)), draining := s.draining + Retired(s.active, PoolDraining),
       health := Ready, nextGeneration := s.nextGeneration + 1)
  }

  predicate Expired(g: Generation, now: i64) { now >= g.hardExpiryEpochMs }

  function CloseIfExpired(g: Generation, now: i64): Generation {
    if Expired(g, now) then g.(state := PoolClosed) else g
  }

  function CloseExpired(gs: seq<Generation>, now: i64): (r: seq<Generation>)
    ensures |r| == |gs|
  {
    seq(|gs|, i requires 0 <= i < |gs| => CloseIfExpired(gs[i], now))
  }

  function HealthAfterFailure(s: Supervisor, now: i64): HealthState {
    if s.active.None? || Expired(s.active.value, now) then NotReady
    else if now >= SaturatingSub(s.active.value.hardExpiryEpochMs, s.safetyMargin) then Draining
    else Degraded
  }

  function Drained(s: Supervisor, now: i64): Supervisor {
    var closed := CloseExpired(s.draining, now);
    if s.active.Some? && Expired(s.active.value, now) then
      s.(active := None, draining := closed + Retired(s.active, PoolClosed), health := NotReady)
    else s.(draining := closed)
  }

  function Step(s: Supervisor, call: Call): Supervisor {
    match call
    case ActivateInitial(c, now) =>
      if s.active.Some? || GenerationError(s, c, now).Some? then s else Activated(s, c, now)
    case RotationSucceeded(c, now) =>
      if GenerationError(s, c, now).Some? then s else Activated(s, c, now)
    case RotationFailed(now) => s.(health := HealthAfterFailure(s, now))
    case HardDrain(now) => Drained(s, now)
  }

  function NextRetry(s: Supervisor, now: i64, backoff: i64): Option<i64> {
    if s.active.None? || backoff <= 0 || Expired(s.active.value, now) then None
    else Some(Min(SaturatingAdd(now, backoff), SaturatingSub(s.active.value.hardExpiryEpochMs, 1)))
  }

  function Acquired(s: Supervisor, deadline: i64): Result<ConnectionLease, RiskAdmission> {
    if s.health == Draining || s.health == NotReady || s.active.None? then Err(RejectedUnavailable)
    else if deadline > SaturatingSub(s.active.value.hardExpiryEpochMs, s.safetyMargin) then Err(RejectedDeadline)
    else
      var g := s.active.value;
      Ok(ConnectionLease(g.generationId, g.leaseId, g.hardExpiryEpochMs, deadline))
  }

  // ----- the supervisor

  class RotationSupervisor {
    var active: Option<Generation>
    var draining: seq<Generation>
    var health: HealthState
    var nextGeneration: u64
    const safetyMargin: i64

    ghost function Value(): Supervisor
      reads this
    {
      Supervisor(active, draining, health, nextGeneration, safetyMargin)
    }

    constructor (safetyMargin: i64)
      requires safetyMargin > 0
      ensures Value() == Initial(safetyMargin)
    {
      active, draining, health, nextGeneration := None, [], NotReady, 1;
      this.safetyMargin := safetyMargin;
    }

    /** `new`. */
    static method New(safetyMargin: i64) returns (r: Result<RotationSupervisor, VaultError>)
      ensures r.Ok? <==> safetyMargin > 0
      ensures r.Ok? ==> fresh(r.value) && r.value.Value() == Initial(safetyMargin)
      ensures r.Err? ==> r.error == InvalidSafetyMargin
    {
      if safetyMargin <= 0 { return Err(InvalidSafetyMargin); }
      var supervisor := new RotationSupervisor(safetyMargin);
      return Ok(supervisor);
    }

    /** `generation_from`: a number is taken only when every check has passed. */
    method GenerationFrom(c: Credential, now: i64) returns (r: Result<Generation, VaultError>)
      modifies `nextGeneration
      ensures r == var error := GenerationError(old(Value()), c, now);
                   if error.Some? then Err(error.value) else Ok(NewGeneration(old(Value()), c, now))
      ensures nextGeneration == old(nextGeneration) + (if r.Ok? then 1 else 0)
    {
      if !CredentialValid(c) { return Err(InvalidCredential); }
      if now < c.acquiredAtEpochMs || now >= c.hardExpiryEpochMs { return Err(CredentialOutsideValidity); }
      var id := nextGeneration;
      if nextGeneration + 1 >= U64_BOUND { return Err(GenerationExhausted); }
      nextGeneration := nextGeneration + 1;
      return Ok(Generation(id, c.leaseId, c.renewable, now, c.rotateAfterEpochMs, c.hardExpiryEpochMs, PoolActive));
    }

    method Activate(c: Credential, now: i64) returns (error: Option<VaultError>)
      modifies this
      ensures Value() == Step(old(Value()), ActivateInitial(c, now))
      ensures error == if old(active).Some? then Some(GenerationAlreadyActive) else GenerationError(old(Value()), c, now)
    {
      if active.Some? { return Some(GenerationAlreadyActive); }
      var generation := GenerationFrom(c, now);
      if generation.Err? { return Some(generation.error); }
      active := Some(generation.value);
      health := Ready;
      assert draining + [] == draining;
      return None;
    }

    method Rotate(c: Credential, now: i64) returns (error: Option<VaultError>)
      modifies this
      ensures Value() == Step(old(Value()), RotationSucceeded(c, now))
      ensures error == GenerationError(old(Value()), c, now)
    {
      var next := GenerationFrom(c, now);
      if next.Err? { return Some(next.error); }
      var previous := active;
      active := Some(next.value);
      if previous.Some? { draining := draining + [previous.value.(state := PoolDraining)]; }
      assert previous.None? ==> draining + [] == draining;
      health := Ready;
      return None;
    }

    method FailRotation(now: i64) returns (state: HealthState)
      modifies `health
      ensures Value() == Step(old(Value()), RotationFailed(now)) && state == health
    {
      if active.None? { health := NotReady; }
      else if now >= active.value.hardExpiryEpochMs { health := NotReady; }
      else if now >= SaturatingSub(active.value.hardExpiryEpochMs, safetyMargin) { health := Draining; }
      else { health := Degraded; }
      return health;
    }

    method NextRetryAt(now: i64, backoff: i64) returns (at: Option<i64>)
      ensures at == NextRetry(Value(), now, backoff)
    {
      if active.None? { return None; }
      if backoff <= 0 || now >= active.value.hardExpiryEpochMs { return None; }
      return Some(Min(SaturatingAdd(now, backoff), SaturatingSub(active.value.hardExpiryEpochMs, 1)));
    }

    method Acquire(deadline: i64) returns (r: Result<ConnectionLease, RiskAdmission>)
      ensures r == Acquired(Value(), deadline)
    {
      if health == Draining || health == NotReady { return Err(RejectedUnavailable); }
      if active.None? { return Err(RejectedUnavailable); }
      var g := active.value;
      if deadline > SaturatingSub(g.hardExpiryEpochMs, safetyMargin) { return Err(RejectedDeadline); }
      return Ok(ConnectionLease(g.generationId, g.leaseId, g.hardExpiryEpochMs, deadline));
    }

    method CloseExpiredGenerations(now: i64)
      modifies `draining
      ensures draining == CloseExpired(old(draining), now)
    {
      for i := 0 to |draining|
        invariant |draining| == |old(draining)|
        invariant forall k :: 0 <= k < i ==> draining[k] == CloseIfExpired(old(draining)[k], now)
        invariant forall k :: i <= k < |draining| ==> draining[k] == old(draining)[k]
      {
        if now >= draining[i].hardExpiryEpochMs {
          draining := draining[i := draining[i].(state := PoolClosed)];
        }
      }
    }

    method DrainHard(now: i64)
      modifies this
      ensures Value() == Step(old(Value()), HardDrain(now))
    {
      CloseExpiredGenerations(now);
      if active.Some? && now >= active.value.hardExpiryEpochMs {
        draining := draining + [active.value.(state := PoolClosed)];
        active := None;
        health := NotReady;
      }
    }
  }

  // ----- what every run keeps

  function Initial(safetyMargin: i64): Supervisor {
    Supervisor(None, [], NotReady, 1, safetyMargin)
  }

  function After(s: Supervisor, calls: seq<Call>): Supervisor
    decreases |calls|
  {
    if calls == [] then s else Step(After(s, calls[..|calls| - 1]), calls[|calls| - 1])
  }

  /** A generation was built from a valid credential, so its expiry is not the least integer. */
  predicate Bounded(g: Generation) {
    g.rotateAfterEpochMs < g.hardExpiryEpochMs && g.activatedAtEpochMs < g.hardExpiryEpochMs
  }

  /** Numbers are conserved: retired generations carry 1, 2, 3, ... in order, the active one the
      last number handed out, and nothing is serving without an active generation. */
  predicate Conserved(s: Supervisor) {
    && s.safetyMargin > 0
    && s.nextGeneration == |s.draining| + (if s.active.Some? then 1 else 0) + 1
    && (forall i :: 0 <= i < |s.draining| ==>
          s.draining[i].generationId == i + 1 && s.draining[i].state != PoolActive && Bounded(s.draining[i]))
    && (s.active.Some? ==>
          s.active.value.generationId == s.nextGeneration - 1 && s.active.value.state == PoolActive && Bounded(s.active.value))
    && (s.active.None? ==> s.health == NotReady)
  }

  lemma StepConserves(s: Supervisor, call: Call)
    requires Conserved(s)
    ensures Conserved(Step(s, call))
  {
  }

  lemma {:induction false} RunConserves(safetyMargin: i64, calls: seq<Call>)
    requires safetyMargin > 0
    ensures Conserved(After(Initial(safetyMargin), calls))
    decreases |calls|
  {
    if calls != [] {
      RunConserves(safetyMargin, calls[..|calls| - 1]);
      hide Step, Conserved;
      StepConserves(After(Initial(safetyMargin), calls[..|calls| - 1]), calls[|calls| - 1]);
    }
  }

  /** All generations ever built and still known, oldest first. */
  function Generations(s: Supervisor): seq<Generation> {
    s.draining + (if s.active.Some? then [s.active.value] else [])
  }

  /** After any run every number from 1 to `nextGeneration - 1` belongs to exactly one generation. */
  lemma EveryNumberOnce(safetyMargin: i64, calls: seq<Call>, id: nat)
    requires safetyMargin > 0
    ensures var s := After(Initial(safetyMargin), calls);
            && |Generations(s)| == s.nextGeneration - 1
            && (1 <= id < s.nextGeneration ==>
                  Generations(s)[id - 1].generationId == id
                  && forall k :: 0 <= k < |Generations(s)| && Generations(s)[k].generationId == id ==> k == id - 1)
  {
    hide After;
    RunConserves(safetyMargin, calls);
  }

  /** Retired generations keep their place and identity, and a closed one never changes again. */
  predicate Keeps(s: Supervisor, t: Supervisor) {
    && |s.draining| <= |t.draining|
    && forall i :: 0 <= i < |s.draining| ==>
         && t.draining[i].(state := s.draining[i].state) == s.draining[i]
         && (s.draining[i].state == PoolClosed ==> t.draining[i] == s.draining[i])
         && (s.draining[i].state != PoolActive ==> t.draining[i].state != PoolActive)
  }

  lemma StepKeepsRetired(s: Supervisor, call: Call)
    ensures Keeps(s, Step(s, call))
  {
  }

  lemma {:induction false} ClosedIsFinal(s: Supervisor, calls: seq<Call>)
    ensures Keeps(s, After(s, calls))
    decreases |calls|
  {
    if calls != [] {
      var t := After(s, calls[..|calls| - 1]);
      ClosedIsFinal(s, calls[..|calls| - 1]);
      StepKeepsRetired(t, calls[|calls| - 1]);
      hide Step, After;
      assert After(s, calls) == Step(t, calls[|calls| - 1]);
    }
  }

  /** After a hard drain every expired generation is closed and none of them serves. */
  lemma DrainClosesExpired(s: Supervisor, now: i64)
    ensures var t := Step(s, HardDrain(now));
            && (forall i :: 0 <= i < |t.draining| && Expired(t.draining[i], now) ==> t.draining[i].state == PoolClosed)
            && (t.active.Some? ==> !Expired(t.active.value, now))
            && (forall deadline :: Acquired(t, deadline).Ok? ==> now < Acquired(t, deadline).value.credentialHardExpiryEpochMs)
  {
  }

  /** The run holds a hard drain at or after the expiry of a generation. */
  ghost predicate DrainedAt(calls: seq<Call>, k: nat, g: Generation) {
    k < |calls| && calls[k].HardDrain? && Expired(g, calls[k].now)
  }

  /** In every run a generation is closed only by a hard drain at or after its own expiry. */
  lemma {:induction false} ClosedMeansExpired(safetyMargin: i64, calls: seq<Call>, i: nat)
    requires safetyMargin > 0
    requires var s := After(Initial(safetyMargin), calls); i < |s.draining| && s.draining[i].state == PoolClosed
    ensures exists k :: DrainedAt(calls, k, After(Initial(safetyMargin), calls).draining[i])
    decreases |calls|
  {
    if calls != [] {
      var n := |calls| - 1;
      var s, t := After(Initial(safetyMargin), calls[..n]), After(Initial(safetyMargin), calls);
      StepKeepsRetired(s, calls[n]);
      if i < |s.draining| && s.draining[i].state == PoolClosed {
        ClosedMeansExpired(safetyMargin, calls[..n], i);
        var k :| DrainedAt(calls[..n], k, s.draining[i]);
        assert DrainedAt(calls, k, t.draining[i]);
      } else {
        RunConserves(safetyMargin, calls[..n]);
        assert DrainedAt(calls, n, t.draining[i]);
      }
    }
  }

  /** A granted deadline lies strictly before the credential's hard expiry, by the full safety
      margin unless the subtraction saturates, and names the active generation. */
  lemma GrantedDeadlineIsSafe(safetyMargin: i64, calls: seq<Call>, deadline: i64)
    requires safetyMargin > 0
    ensures var s := After(Initial(safetyMargin), calls);
            Acquired(s, deadline).Ok? ==>
              var lease := Acquired(s, deadline).value;
              && deadline < lease.credentialHardExpiryEpochMs && lease.operationDeadlineEpochMs == deadline
              && lease.generationId == s.nextGeneration - 1
              && (deadline + s.safetyMargin <= lease.credentialHardExpiryEpochMs || deadline == I64_MIN)
  {
    hide After;
    RunConserves(safetyMargin, calls);
  }

  /** The check for an active generation in `acquire` never fails: the health test covers it. */
  lemma HealthImpliesActive(safetyMargin: i64, calls: seq<Call>)
    requires safetyMargin > 0
    ensures var s := After(Initial(safetyMargin), calls);
            s.health == Ready || s.health == Degraded ==> s.active.Some?
  {
    hide After;
    RunConserves(safetyMargin, calls);
  }

  /** A retry time lies in the present or later and strictly before hard expiry; it is strictly
      later exactly when a millisecond is left. */
  lemma RetryIsInTime(safetyMargin: i64, calls: seq<Call>, now: i64, backoff: i64)
    requires safetyMargin > 0
    ensures var s := After(Initial(safetyMargin), calls);
            NextRetry(s, now, backoff).Some? ==>
              var at := NextRetry(s, now, backoff).value;
              var expiry := s.active.value.hardExpiryEpochMs;
              && now <= at < expiry && (now < at <==> now + 1 < expiry)
              && (now + backoff < expiry ==> at == now + backoff)
  {
    hide After;
    RunConserves(safetyMargin, calls);
  }
}
