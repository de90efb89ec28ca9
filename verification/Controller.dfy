/**
 The product controller: role states fenced by the operation number, the process generation and the underlay
 epoch. The transitions are functions on the whole product state; the class runs them in place, and the
 theorems are about every sequence of calls.
 */
module Controller {
  import opened Identity
  import opened Netstate

  datatype RoleState =
    | Stopped | WaitingForUnderlay | PreparingEndpoint | Starting | Validating | Ready | Recovering | Stopping | Failed

  datatype ToadState = ToadFailed | ToadStopped | ToadRecovering | ToadQuiesced | ToadReconnecting | ToadReady | ToadOnline
                     | ToadOther(text: string)

  datatype Toad = Toad(generation: nat, state: ToadState, routeReady: bool, canRebind: bool, keepsTun: bool, detail: string)

  const NO_TOAD := Toad(0, ToadOther(""), false, false, false, "")

  datatype RoleRuntime = RoleRuntime(
    desired: bool, state: RoleState, operation: nat, toadGeneration: nat, validatedEpoch: nat, toad: Toad, healthy: bool)

  datatype Product = Product(roles: map<string, RoleRuntime>, underlay: Snapshot)

  datatype ValidationToken = ValidationToken(role: string, operation: nat, toadGeneration: nat, underlayEpoch: nat)

  // ----- transitions of one role -----

  function Desired(r: RoleRuntime, enabled: bool): RoleRuntime {
    if r.desired == enabled then r
    else r.(desired := enabled, operation := r.operation + 1, state := if enabled then Starting else Stopped)
  }

  /** One role when the underlay becomes `next`. */
  function OnUnderlay(r: RoleRuntime, initial: bool, next: Snapshot): RoleRuntime {
    if !r.desired then r
    else if !next.HasPath() then r.(validatedEpoch := 0, state := WaitingForUnderlay)
    else if !initial && (r.state == Ready || r.state == WaitingForUnderlay) && r.validatedEpoch != next.epoch then
      r.(validatedEpoch := 0, state := Recovering)
    else r
  }

  predicate Observable(r: RoleRuntime, toad: Toad) {
    r.toadGeneration == 0 || r.toadGeneration == toad.generation
  }

  function Observed(r: RoleRuntime, epoch: nat, toad: Toad): RoleRuntime
    requires Observable(r, toad)
  {
    if r.toadGeneration == toad.generation && r.toad == toad then r
    else
      var seen := r.(toadGeneration := toad.generation, toad := toad);
      if !toad.routeReady then
        var lost := seen.(validatedEpoch := 0);
        if !r.desired then lost
        else if toad.state == ToadFailed then lost.(state := Failed)
        else if toad.state == ToadStopped then lost.(state := Stopped)
        else if r.state != Recovering then lost.(state := Validating)
        else lost
      else
        match toad.state
        case ToadFailed => seen.(state := Failed, validatedEpoch := 0)
        case ToadStopped => seen.(state := Stopped, validatedEpoch := 0)
        case ToadRecovering => seen.(state := Recovering, validatedEpoch := 0)
        case ToadQuiesced => seen.(state := Recovering, validatedEpoch := 0)
        case ToadReconnecting => seen.(state := Recovering, validatedEpoch := 0)
        case ToadOther(_) => seen
        case _ =>
          if r.desired && r.validatedEpoch != epoch && r.state != Recovering then seen.(state := Validating) else seen
  }

  predicate MayValidate(r: RoleRuntime, underlay: Snapshot) {
    r.desired && r.toadGeneration != 0 && r.toad.routeReady && underlay.epoch != 0 && underlay.HasPath()
  }

  /** A validation result is still about this role, process and underlay. */
  predicate Current(p: Product, token: ValidationToken) {
    && token.role in p.roles
    && var r := p.roles[token.role];
       && r.desired && r.toad.routeReady && r.operation == token.operation
       && r.toadGeneration == token.toadGeneration && p.underlay.epoch == token.underlayEpoch
  }

  function Validated(r: RoleRuntime, epoch: nat, healthy: bool): RoleRuntime {
    if healthy then r.(state := Ready, validatedEpoch := epoch, healthy := true)
    else r.(state := Failed, validatedEpoch := 0, healthy := false)
  }

  function Replaced(r: RoleRuntime): RoleRuntime {
    r.(toadGeneration := 0, toad := NO_TOAD, validatedEpoch := 0, healthy := false,
       state := if r.desired then Starting else r.state)
  }

  function Resumed(r: RoleRuntime): RoleRuntime {
    if r.desired && r.state == Ready then r.(validatedEpoch := 0, state := Validating) else r
  }

  // ----- calls -----

  datatype Call =
    | SetRoleDesired(role: string, enabled: bool)
    | SetUnderlay(next: Snapshot)
    | ObserveToad(role: string, toad: Toad)
    | BeginValidation(role: string)
    | CompleteValidation(token: ValidationToken, healthy: bool)
    | CompleteValidationPending(token: ValidationToken, healthy: bool)
    | RequestResumeValidation
    | RequestRoleValidation(role: string)
    | MarkRecovering(role: string)
    | BeginToadGeneration(role: string)
    | UpdateRoleResources(role: string, healthy: bool)
    | SetRecovery(role: string, state: RoleState)
    | Complete(role: string, op: nat, epoch: nat, ok: bool)

  function WithRole(p: Product, role: string, r: RoleRuntime): Product {
    p.(roles := p.roles[role := r])
  }

  /** The underlay that a published snapshot leads to, or None when it is stale or brings nothing new. */
  function Accepted(underlay: Snapshot, next: Snapshot): Option<Snapshot> {
    if next.epoch == 0 then
      var c := Compare(underlay, next);
      if c.changed then Some(c.merged) else None
    else if next.epoch <= underlay.epoch then None
    else Some(next)
  }

  function UnderlayChanged(p: Product, next: Snapshot): Product {
    var accepted := Accepted(p.underlay, next);
    if accepted.Some? then
      Product(map id | id in p.roles :: OnUnderlay(p.roles[id], p.underlay.epoch == 0, accepted.value), accepted.value)
    else if next.epoch != 0 && next.epoch == p.underlay.epoch && IdentityEqual(p.underlay, next) then
      p.(underlay := p.underlay.(observedAt := next.observedAt))
    else p
  }

  /** One call; a rejected call changes nothing. */
  function After(p: Product, call: Call): Product {
    match call
    case SetRoleDesired(role, enabled) =>
      if role in p.roles then WithRole(p, role, Desired(p.roles[role], enabled)) else p
    case SetUnderlay(next) => UnderlayChanged(p, next)
    case ObserveToad(role, toad) =>
      if role in p.roles && Observable(p.roles[role], toad)
      then WithRole(p, role, Observed(p.roles[role], p.underlay.epoch, toad)) else p
    case BeginValidation(role) =>
      if role in p.roles && MayValidate(p.roles[role], p.underlay)
      then WithRole(p, role, p.roles[role].(state := Validating)) else p
    case CompleteValidation(token, healthy) =>
      if Current(p, token)
      then WithRole(p, token.role, Validated(p.roles[token.role], token.underlayEpoch, healthy)) else p
    case CompleteValidationPending(token, healthy) =>
      if Current(p, token)
      then WithRole(p, token.role, p.roles[token.role].(state := Recovering, validatedEpoch := 0, healthy := healthy))
      else p
    case RequestResumeValidation => p.(roles := map id | id in p.roles :: Resumed(p.roles[id]))
    case RequestRoleValidation(role) =>
      if role in p.roles && p.roles[role].desired && p.roles[role].toadGeneration != 0 && p.roles[role].toad.routeReady
      then WithRole(p, role, p.roles[role].(validatedEpoch := 0, state := Validating)) else p
    case MarkRecovering(role) =>
      if role in p.roles && p.roles[role].desired
      then WithRole(p, role, p.roles[role].(validatedEpoch := 0, state := Recovering)) else p
    case BeginToadGeneration(role) =>
      if role in p.roles then WithRole(p, role, Replaced(p.roles[role])) else p
    case UpdateRoleResources(role, healthy) =>
      if role in p.roles then WithRole(p, role, p.roles[role].(healthy := healthy)) else p
    case SetRecovery(role, state) =>
      if role in p.roles then WithRole(p, role, p.roles[role].(state := state)) else p
    case Complete(role, op, epoch, ok) =>
      if role in p.roles && p.roles[role].operation == op && p.underlay.epoch == epoch
      then WithRole(p, role, if ok then p.roles[role].(state := Ready, validatedEpoch := epoch)
                             else p.roles[role].(state := Failed))
      else p
  }

  /** The token that a successful BeginValidation hands out. */
  function TokenFor(p: Product, role: string): ValidationToken
    requires role in p.roles
  {
    ValidationToken(role, p.roles[role].operation, p.roles[role].toadGeneration, p.underlay.epoch)
  }

  // ----- runs -----

  predicate IsStart(p: Product) {
    p.underlay == ZERO && forall id <- p.roles :: p.roles[id] == RoleRuntime(false, Stopped, 0, 0, 0, NO_TOAD, false)
  }

  /** The state after the first k calls. */
  function StateAt(p0: Product, calls: seq<Call>, k: nat): Product
    requires k <= |calls|
  {
    if k == 0 then p0 else After(StateAt(p0, calls, k - 1), calls[k - 1])
  }

  /** The token was handed out by an accepted BeginValidation before call k. */
  predicate Issued(p0: Product, calls: seq<Call>, j: nat, k: nat, token: ValidationToken) {
    && j < k <= |calls| && calls[j] == BeginValidation(token.role)
    && var p := StateAt(p0, calls, j);
       token.role in p.roles && MayValidate(p.roles[token.role], p.underlay) && token == TokenFor(p, token.role)
  }

  // ----- epochs, operations and generations only move one way -----

  lemma StepEpoch(p: Product, call: Call)
    ensures p.underlay.epoch <= After(p, call).underlay.epoch
    ensures After(p, call).underlay.epoch == p.underlay.epoch ==> IdentityEqual(p.underlay, After(p, call).underlay)
  {
  }

  lemma StepOperation(p: Product, call: Call, id: string)
    requires id in p.roles
    ensures id in After(p, call).roles
    ensures var r, r' := p.roles[id], After(p, call).roles[id];
            r.operation <= r'.operation && (r.operation == r'.operation ==> r.desired == r'.desired)
  {
  }

  /** Between two moments with the same epoch the underlay identity never changed. */
  lemma {:induction false} EpochFixesUnderlay(p0: Product, calls: seq<Call>, j: nat, k: nat)
    requires j <= k <= |calls|
    ensures StateAt(p0, calls, j).underlay.epoch <= StateAt(p0, calls, k).underlay.epoch
    ensures StateAt(p0, calls, j).underlay.epoch == StateAt(p0, calls, k).underlay.epoch ==>
              IdentityEqual(StateAt(p0, calls, j).underlay, StateAt(p0, calls, k).underlay)
  {
    if j < k {
      EpochFixesUnderlay(p0, calls, j, k - 1);
      StepEpoch(StateAt(p0, calls, k - 1), calls[k - 1]);
    }
  }

  /** Between two moments with the same operation number the role was never disabled or enabled. */
  lemma {:induction false} OperationFixesDesired(p0: Product, calls: seq<Call>, j: nat, k: nat, id: string)
    requires j <= k <= |calls| && id in StateAt(p0, calls, j).roles
    ensures id in StateAt(p0, calls, k).roles
    ensures var r, r' := StateAt(p0, calls, j).roles[id], StateAt(p0, calls, k).roles[id];
            r.operation <= r'.operation && (r.operation == r'.operation ==> r.desired == r'.desired)
  {
    if j < k {
      OperationFixesDesired(p0, calls, j, k - 1, id);
      StepOperation(StateAt(p0, calls, k - 1), calls[k - 1], id);
    }
  }

  // ----- Ready authority -----

  /** Everything that entitles a role to Ready. */
  predicate Entitled(p: Product, r: RoleRuntime) {
    MayValidate(r, p.underlay) && r.validatedEpoch == p.underlay.epoch
  }

  predicate ReadyOk(p: Product, id: string) {
    id in p.roles && p.roles[id].state == Ready ==> Entitled(p, p.roles[id])
  }

  ghost predicate Authority(p: Product) {
    forall id :: ReadyOk(p, id)
  }

  /** A completion with this token would be about a real process on a real underlay. */
  predicate Genuine(p: Product, token: ValidationToken) {
    Current(p, token) ==> token.toadGeneration != 0 && token.underlayEpoch != 0 && p.underlay.HasPath()
  }

  lemma StepKeepsAuthority(p: Product, call: Call)
    requires Authority(p) && !call.SetRecovery? && !call.Complete?
    requires call.CompleteValidation? ==> Genuine(p, call.token)
    ensures Authority(After(p, call))
  {
    forall id
      ensures ReadyOk(After(p, call), id)
    {
      assert ReadyOk(p, id);
    }
  }

  lemma IssuedIsGenuine(p0: Product, calls: seq<Call>, j: nat, k: nat, token: ValidationToken)
    requires k <= |calls| && Issued(p0, calls, j, k, token)
    ensures Genuine(StateAt(p0, calls, k), token)
  {
    EpochFixesUnderlay(p0, calls, j, k);
  }

  /** The calls of a run that the theorem covers: no unfenced Ready, and no invented token. */
  ghost predicate FencedCall(p0: Product, calls: seq<Call>, k: nat)
    requires k < |calls|
  {
    && !calls[k].SetRecovery? && !calls[k].Complete?
    && (calls[k].CompleteValidation? ==> exists j :: Issued(p0, calls, j, k, calls[k].token))
  }

  /**
   Ready authority: in every interleaving of calls, a Ready role is desired, has a live process with a ready
   route target and an available underlay, and was validated on the current epoch.
   */
  lemma {:induction false} ReadyIsAuthoritative(p0: Product, calls: seq<Call>, k: nat)
    requires IsStart(p0) && k <= |calls| && forall i | 0 <= i < k :: FencedCall(p0, calls, i)
    ensures Authority(StateAt(p0, calls, k))
  {
    if k > 0 {
      ReadyIsAuthoritative(p0, calls, k - 1);
      assert FencedCall(p0, calls, k - 1);
      var call := calls[k - 1];
      if call.CompleteValidation? {
        var j :| Issued(p0, calls, j, k - 1, call.token);
        IssuedIsGenuine(p0, calls, j, k - 1, call.token);
      }
      StepKeepsAuthority(StateAt(p0, calls, k - 1), call);
    }
  }

  /** The recovery engine's write is not fenced: it keeps the authority exactly when the role is entitled anyway. */
  lemma SetRecoveryKeepsAuthority(p: Product, role: string, state: RoleState)
    requires Authority(p) && role in p.roles
    ensures Authority(After(p, SetRecovery(role, state))) <==> state != Ready || Entitled(p, p.roles[role])
  {
    var p' := After(p, SetRecovery(role, state));
    assert ReadyOk(p', role) <==> state != Ready || Entitled(p, p.roles[role]);
    forall id | id != role
      ensures ReadyOk(p', id)
    {
      assert ReadyOk(p, id);
    }
  }

  /** Nor does an operation completion look at the process: it keeps the authority exactly when validation may run. */
  lemma CompleteKeepsAuthority(p: Product, role: string, op: nat, epoch: nat, ok: bool)
    requires Authority(p) && role in p.roles && p.roles[role].operation == op && p.underlay.epoch == epoch
    ensures Authority(After(p, Complete(role, op, epoch, ok))) <==> !ok || MayValidate(p.roles[role], p.underlay)
  {
    var p' := After(p, Complete(role, op, epoch, ok));
    assert ReadyOk(p', role) <==> !ok || MayValidate(p.roles[role], p.underlay);
    forall id | id != role
      ensures ReadyOk(p', id)
    {
      assert ReadyOk(p, id);
    }
  }

  /** The states of a run of seven calls, written out. */
  lemma Unroll(p0: Product, calls: seq<Call>) returns (p: seq<Product>)
    requires |calls| == 7
    ensures |p| == 8 && p[0] == p0
    ensures forall i | 0 <= i < 7 :: p[i + 1] == After(p[i], calls[i])
    ensures forall i | 0 <= i < 8 :: StateAt(p0, calls, i) == p[i]
  {
    p := seq(8, i requires 0 <= i < 8 => StateAt(p0, calls, i));
  }

  /** Five calls that validate a role, and two more to come. */
  lemma ValidatedRun(role: string, toad: Toad, u1: Snapshot, more: seq<Call>) returns (p0: Product, calls: seq<Call>)
    requires toad.generation != 0 && toad.routeReady && toad.state == ToadReady && u1.epoch != 0 && u1.HasPath()
    requires |more| == 2
    ensures IsStart(p0) && |calls| == 7 && calls[5..] == more
    ensures forall i | 0 <= i < 5 && i != 4 ::
              !calls[i].SetRecovery? && !calls[i].Complete? && !calls[i].CompleteValidation?
    ensures calls[4].CompleteValidation? && Issued(p0, calls, 3, 4, calls[4].token)
    ensures StateAt(p0, calls, 5) ==
            Product(map[role := RoleRuntime(true, Ready, 1, toad.generation, u1.epoch, toad, true)], u1)
  {
    p0 := Product(map[role := RoleRuntime(false, Stopped, 0, 0, 0, NO_TOAD, false)], ZERO);
    var token := ValidationToken(role, 1, toad.generation, u1.epoch);
    calls := [SetRoleDesired(role, true), SetUnderlay(u1), ObserveToad(role, toad), BeginValidation(role),
              CompleteValidation(token, true)] + more;
    var p := Unroll(p0, calls);
    assert p[1] == After(p[0], calls[0]) && p[2] == After(p[1], calls[1]) && p[3] == After(p[2], calls[2]);
    assert p[3] == Product(map[role := RoleRuntime(true, Validating, 1, toad.generation, 0, toad, false)], u1);
    assert p[4] == After(p[3], calls[3]) && p[5] == After(p[4], calls[4]);
  }

  /**
   The engine can publish a Ready that nobody validated: a role is validated on one underlay, the underlay
   changes while the recovery runs, and the recovery ends well. Six fenced calls lead there.
   */
  lemma UnfencedReady(role: string, toad: Toad, u1: Snapshot, u2: Snapshot) returns (p0: Product, calls: seq<Call>)
    requires toad.generation != 0 && toad.routeReady && toad.state == ToadReady
    requires 0 < u1.epoch < u2.epoch && u1.HasPath() && u2.HasPath()
    ensures IsStart(p0) && |calls| == 7 && calls[6] == SetRecovery(role, Ready)
    ensures forall i | 0 <= i < 6 :: FencedCall(p0, calls, i)
    ensures Authority(StateAt(p0, calls, 6)) && !Authority(StateAt(p0, calls, 7))
  {
    p0, calls := ValidatedRun(role, toad, u1, [SetUnderlay(u2), SetRecovery(role, Ready)]);
    assert calls[5] == calls[5..][0] && calls[6] == calls[5..][1];
    FencedSix(p0, calls, calls[4].token);
    ReadyIsAuthoritative(p0, calls, 6);
    var p := Unroll(p0, calls);
    assert p[6] == After(p[5], calls[5]) && p[7] == After(p[6], calls[6]);
    assert !ReadyOk(p[7], role);
  }

  lemma FencedSix(p0: Product, calls: seq<Call>, token: ValidationToken)
    requires |calls| == 7 && Issued(p0, calls, 3, 4, token) && calls[4].CompleteValidation? && calls[4].token == token
    requires forall i | 0 <= i < 6 && i != 4 ::
               !calls[i].SetRecovery? && !calls[i].Complete? && !calls[i].CompleteValidation?
    ensures forall i | 0 <= i < 6 :: FencedCall(p0, calls, i)
  {
  }

  /** A completed operation can publish Ready for a role that never had a process. */
  lemma UnentitledCompletion(role: string, u: Snapshot) returns (p0: Product, calls: seq<Call>)
    requires u.epoch != 0
    ensures IsStart(p0) && |calls| == 3 && calls[2] == Complete(role, 1, u.epoch, true)
    ensures FencedCall(p0, calls, 0) && FencedCall(p0, calls, 1)
    ensures Authority(StateAt(p0, calls, 2)) && !Authority(StateAt(p0, calls, 3))
  {
    p0 := Product(map[role := RoleRuntime(false, Stopped, 0, 0, 0, NO_TOAD, false)], ZERO);
    calls := [SetRoleDesired(role, true), SetUnderlay(u), Complete(role, 1, u.epoch, true)];
    ReadyIsAuthoritative(p0, calls, 2);
    var p1 := After(p0, calls[0]);
    var p2 := After(p1, calls[1]);
    assert StateAt(p0, calls, 1) == p1;
    assert StateAt(p0, calls, 2) == p2;
    assert !ReadyOk(StateAt(p0, calls, 3), role);
  }

  // ----- validation tokens have no ABA -----

  /** A process that appears at step m has a generation number never used for this role before. */
  predicate FreshAt(p0: Product, calls: seq<Call>, m: nat, id: string)
    requires m < |calls|
  {
    var p, p' := StateAt(p0, calls, m), StateAt(p0, calls, m + 1);
    id in p.roles && id in p'.roles && p.roles[id].toadGeneration == 0 && p'.roles[id].toadGeneration != 0 ==>
      forall l | 0 <= l <= m ::
        id in StateAt(p0, calls, l).roles ==>
          StateAt(p0, calls, l).roles[id].toadGeneration != p'.roles[id].toadGeneration
  }

  lemma StepGeneration(p: Product, call: Call, id: string)
    requires id in p.roles
    ensures id in After(p, call).roles
    ensures var g, g' := p.roles[id].toadGeneration, After(p, call).roles[id].toadGeneration;
            g' == g || g' == 0 || g == 0
  {
  }

  /** Once the process of moment j is gone, its generation does not come back. */
  lemma {:induction false} GenerationGone(p0: Product, calls: seq<Call>, j: nat, m: nat, k: nat, id: string)
    requires j <= m <= k <= |calls| && id in StateAt(p0, calls, j).roles && id in StateAt(p0, calls, m).roles
    requires forall i | j <= i < k :: FreshAt(p0, calls, i, id)
    requires StateAt(p0, calls, j).roles[id].toadGeneration != 0
    requires StateAt(p0, calls, m).roles[id].toadGeneration != StateAt(p0, calls, j).roles[id].toadGeneration
    ensures id in StateAt(p0, calls, k).roles
    ensures StateAt(p0, calls, k).roles[id].toadGeneration != StateAt(p0, calls, j).roles[id].toadGeneration
    decreases k
  {
    if m < k {
      GenerationGone(p0, calls, j, m, k - 1, id);
      StepGeneration(StateAt(p0, calls, k - 1), calls[k - 1], id);
      assert FreshAt(p0, calls, k - 1, id);
    }
  }

  /**
   No ABA: if a token is still current when its validation completes, then at every moment in between the role
   was desired under the same operation, the underlay was the same, and, when generation numbers are fresh,
   the process was the same.
   */
  lemma NoAba(p0: Product, calls: seq<Call>, j: nat, k: nat, token: ValidationToken, m: nat)
    requires Issued(p0, calls, j, k, token) && Current(StateAt(p0, calls, k), token) && j <= m <= k
    ensures token.role in StateAt(p0, calls, m).roles
    ensures var p := StateAt(p0, calls, m);
            && p.roles[token.role].desired && p.roles[token.role].operation == token.operation
            && p.underlay.epoch == token.underlayEpoch
            && IdentityEqual(p.underlay, StateAt(p0, calls, j).underlay)
            && ((forall i | j <= i < k :: FreshAt(p0, calls, i, token.role)) ==>
                  p.roles[token.role].toadGeneration == token.toadGeneration)
  {
    EpochFixesUnderlay(p0, calls, j, m);
    EpochFixesUnderlay(p0, calls, m, k);
    OperationFixesDesired(p0, calls, j, m, token.role);
    OperationFixesDesired(p0, calls, m, k, token.role);
    if forall i | j <= i < k :: FreshAt(p0, calls, i, token.role) {
      if StateAt(p0, calls, m).roles[token.role].toadGeneration != token.toadGeneration {
        GenerationGone(p0, calls, j, m, k, token.role);
      }
    }
  }

  /** Freshness is needed: a replacement process that reuses the number is taken for the one that was validated. */
  lemma ReusedGenerationIsAba(role: string, toad: Toad, underlay: Snapshot)
    returns (p0: Product, calls: seq<Call>, token: ValidationToken)
    requires toad.generation != 0 && toad.routeReady && toad.state == ToadReady
    requires underlay.epoch != 0 && underlay.HasPath()
    ensures IsStart(p0) && |calls| == 6 && Issued(p0, calls, 3, 6, token) && Current(StateAt(p0, calls, 6), token)
    ensures StateAt(p0, calls, 5).roles.Keys == {role} && StateAt(p0, calls, 5).roles[role].toadGeneration == 0
  {
    p0 := Product(map[role := RoleRuntime(false, Stopped, 0, 0, 0, NO_TOAD, false)], ZERO);
    calls := [SetRoleDesired(role, true), SetUnderlay(underlay), ObserveToad(role, toad), BeginValidation(role),
              BeginToadGeneration(role), ObserveToad(role, toad)];
    var p1 := After(p0, calls[0]);
    var p2 := After(p1, calls[1]);
    var p3 := After(p2, calls[2]);
    var p4 := After(p3, calls[3]);
    var p5 := After(p4, calls[4]);
    assert StateAt(p0, calls, 1) == p1;
    assert StateAt(p0, calls, 2) == p2;
    assert StateAt(p0, calls, 3) == p3;
    assert StateAt(p0, calls, 4) == p4;
    assert StateAt(p0, calls, 5) == p5;
    token := TokenFor(p3, role);
  }

  // ----- nobody is stranded -----

  predicate WaitingOk(p: Product, id: string) {
    id in p.roles && p.roles[id].state == WaitingForUnderlay ==>
      p.roles[id].desired && p.roles[id].validatedEpoch == 0 && p.underlay.epoch != 0 && !p.underlay.HasPath()
  }

  ghost predicate NobodyStranded(p: Product) {
    forall id :: WaitingOk(p, id)
  }

  lemma StepStrandsNobody(p: Product, call: Call)
    requires NobodyStranded(p) && (call.SetRecovery? ==> call.state != WaitingForUnderlay)
    ensures NobodyStranded(After(p, call))
  {
    forall id
      ensures WaitingOk(After(p, call), id)
    {
      assert WaitingOk(p, id);
    }
  }

  /** In every reachable state a role that waits for the underlay has no underlay in either family. */
  lemma {:induction false} WaitingMeansNoPath(p0: Product, calls: seq<Call>, k: nat)
    requires IsStart(p0) && k <= |calls|
    requires forall i | 0 <= i < k :: calls[i].SetRecovery? ==> calls[i].state != WaitingForUnderlay
    ensures NobodyStranded(StateAt(p0, calls, k))
  {
    if k > 0 {
      WaitingMeansNoPath(p0, calls, k - 1);
      StepStrandsNobody(StateAt(p0, calls, k - 1), calls[k - 1]);
    }
  }
}
