/**
 The recovery engine: which steps an action takes, in which order they run for every behaviour of the
 driver, and what is published afterwards.
 */
module Engine {
  import opened Identity
  import opened Netstate
  import opened Controller

  datatype Action =
    | ActionStop | ActionWait | ActionValidate | ActionRebind | ActionRestartTransport | ActionRestartToad | ActionNone

  // ----- what each action can repair -----

  /** The process is gone, or was given up. */
  predicate IsDead(r: RoleRuntime) {
    r.state == Stopped || r.state == Failed
  }

  /** The route target or the session behind it is lost; neither a look nor a rebind brings it back. */
  predicate IsBroken(r: RoleRuntime) {
    r.toadGeneration != 0 && if r.toad.routeReady then r.toad.state == ToadReconnecting else r.state == Recovering
  }

  predicate CanRun(r: RoleRuntime, underlay: Snapshot) {
    r.desired && (underlay.v4.Some? || underlay.v6.Some?)
  }

  /** The role is validated on this underlay. */
  predicate IsCurrent(r: RoleRuntime, underlay: Snapshot) {
    r.validatedEpoch == underlay.epoch
  }

  /** The action brings the role where it should be, and the backend is capable of it. */
  predicate Serves(action: Action, r: RoleRuntime, underlay: Snapshot) {
    match action
    case ActionStop => !r.desired
    case ActionWait => r.desired && !CanRun(r, underlay)
    case ActionNone => CanRun(r, underlay) && r.state == Ready && IsCurrent(r, underlay) && !IsBroken(r)
    case ActionValidate =>
      CanRun(r, underlay) && !IsDead(r) && (r.state == Validating || (IsCurrent(r, underlay) && !IsBroken(r)))
    case ActionRebind =>
      CanRun(r, underlay) && !IsDead(r) && r.toad.canRebind && (r.state == Validating || !IsBroken(r))
    case ActionRestartTransport => CanRun(r, underlay) && !IsDead(r) && r.toad.keepsTun
    case ActionRestartToad => CanRun(r, underlay)
  }

  /** How much the action disturbs the role. */
  function Disruption(action: Action): nat {
    match action
    case ActionNone => 0
    case ActionStop => 0
    case ActionWait => 0
    case ActionValidate => 1
    case ActionRebind => 2
    case ActionRestartTransport => 3
    case ActionRestartToad => 4
  }

  predicate IsLeastDisruptive(action: Action, r: RoleRuntime, underlay: Snapshot) {
    Serves(action, r, underlay) && forall other :: Serves(other, r, underlay) ==> Disruption(action) <= Disruption(other)
  }

  /** The action that the engine takes. */
  function DecideRole(r: RoleRuntime, underlay: Snapshot): Action {
    if !r.desired then ActionStop
    else if !underlay.HasPath() then ActionWait
    else if r.state == Stopped || r.state == Failed then ActionRestartToad
    else if r.state == Validating then ActionValidate
    else if r.state == Recovering && r.toadGeneration != 0 && !r.toad.routeReady then Restart(r)
    else if r.toadGeneration != 0 && r.toad.routeReady && r.toad.state == ToadReconnecting then Restart(r)
    else if r.validatedEpoch != underlay.epoch then (if r.toad.canRebind then ActionRebind else Restart(r))
    else if r.state == Ready then ActionNone
    else ActionValidate
  }

  function Restart(r: RoleRuntime): Action {
    if r.toad.keepsTun then ActionRestartTransport else ActionRestartToad
  }

  /** Of all the actions that serve the role, the engine takes the least disruptive one, and there is only one. */
  lemma DecisionIsLeast(r: RoleRuntime, underlay: Snapshot, action: Action)
    ensures IsLeastDisruptive(action, r, underlay) <==> action == DecideRole(r, underlay)
  {
    var chosen := DecideRole(r, underlay);
    assert Serves(chosen, r, underlay);
    forall other | Serves(other, r, underlay)
      ensures Disruption(chosen) <= Disruption(other)
      ensures Disruption(chosen) == Disruption(other) ==> other == chosen
    {
      match other
      case ActionStop =>
      case ActionWait =>
      case ActionNone =>
      case ActionValidate =>
      case ActionRebind =>
      case ActionRestartTransport =>
      case ActionRestartToad =>
    }
  }

  /**
   What a new report of the process leads to on a desired role with a path. A failed or stopped process is
   replaced; a target that is not ready is looked at, or restarted within a recovery; a dead session is
   restarted; a process that recovers is rebound if it can be; and a good report does not pass for a validation.
   */
  lemma ReportDecides(r: RoleRuntime, toad: Toad, underlay: Snapshot)
    requires r.toadGeneration == 0 || r.toadGeneration == toad.generation
    requires toad.generation != 0 && CanRun(r, underlay) && underlay.epoch != 0
    requires r.toadGeneration != toad.generation || r.toad != toad
    ensures var seen := Observed(r, underlay.epoch, toad);
            !toad.routeReady || toad.state in {ToadFailed, ToadStopped, ToadRecovering, ToadQuiesced, ToadReconnecting} ==>
              seen.validatedEpoch == 0
    ensures var seen := Observed(r, underlay.epoch, toad);
            var action := DecideRole(seen, underlay);
            if toad.state == ToadFailed then seen.state == Failed && action == ActionRestartToad
            else if toad.state == ToadStopped then seen.state == Stopped && action == ActionRestartToad
            else if !toad.routeReady then action == if r.state == Recovering then Restart(seen) else ActionValidate
            else if toad.state == ToadReconnecting then action == Restart(seen)
            else if toad.state == ToadRecovering || toad.state == ToadQuiesced then
              action == if toad.canRebind then ActionRebind else Restart(seen)
            else if (toad.state == ToadReady || toad.state == ToadOnline) && r.state != Recovering then
              if IsCurrent(r, underlay) then seen.state == r.state && seen.validatedEpoch == r.validatedEpoch
              else action == ActionValidate
            else seen == r.(toadGeneration := toad.generation, toad := toad)
  {
  }

  /** A repeated report changes nothing, and one about a role that nobody wants does not touch its state. */
  lemma ReportsThatDecideNothing(r: RoleRuntime, epoch: nat, toad: Toad)
    requires r.toadGeneration == 0 || r.toadGeneration == toad.generation
    ensures r.toadGeneration == toad.generation && r.toad == toad ==> Observed(r, epoch, toad) == r
    ensures !r.desired && !toad.routeReady ==> Observed(r, epoch, toad).state == r.state
  {
  }

  /** The state asks for the transport to be moved: rebound if that can help, and restarted otherwise. */
  predicate AsksForTransport(r: RoleRuntime, underlay: Snapshot) {
    DecideRole(r, underlay) == if r.toad.canRebind && !IsBroken(r) then ActionRebind else Restart(r)
  }

  /**
   The controller steers the engine. Whatever call it accepts, the role it leaves behind makes the engine take the
   action that the call stands for.
   */
  lemma CallsSteerEngine(p: Product, call: Call, id: string)
    requires call.SetRoleDesired? || call.BeginValidation? || call.RequestRoleValidation? || call.MarkRecovering?
             || call.BeginToadGeneration? || call.UpdateRoleResources? || call.Complete?
    requires id in p.roles && call.role == id && p.underlay.epoch != 0
    ensures var r, r' := p.roles[id], After(p, call).roles[id];
            var before, after := DecideRole(r, p.underlay), DecideRole(r', p.underlay);
            && After(p, call).underlay == p.underlay
            && match call
               case SetRoleDesired(_, enabled) =>
                 && r'.desired == enabled && (after == ActionStop <==> !enabled)
                 && if enabled == r.desired then r' == r
                    else r'.operation == r.operation + 1 && r'.state == if enabled then Starting else Stopped
               case BeginValidation(_) =>
                 if CanRun(r, p.underlay) && r.toadGeneration != 0 && r.toad.routeReady
                 then after == ActionValidate else r' == r
               case RequestRoleValidation(_) =>
                 if r.desired && r.toadGeneration != 0 && r.toad.routeReady
                 then r'.validatedEpoch == 0 && (CanRun(r, p.underlay) ==> after == ActionValidate) else r' == r
               case MarkRecovering(_) =>
                 if r.desired then r'.validatedEpoch == 0 && (CanRun(r, p.underlay) ==> AsksForTransport(r', p.underlay))
                 else r' == r
               case BeginToadGeneration(_) =>
                 && r'.toadGeneration == 0 && r'.validatedEpoch == 0 && !r'.healthy && (!r.desired ==> r'.state == r.state)
                 && (CanRun(r, p.underlay) ==> after == ActionRestartToad && !IsDead(r'))
               case UpdateRoleResources(_, healthy) => after == before && r'.healthy == healthy
               case Complete(_, op, epoch, ok) =>
                 if r.operation != op || p.underlay.epoch != epoch then r' == r
                 else CanRun(r, p.underlay) ==>
                   if !ok then after == ActionRestartToad else if IsBroken(r') then after == Restart(r) else after == ActionNone
               case _ => true
  {
  }

  /** A completed validation leaves nothing to do, a failed one replaces the process, a pending one moves the transport. */
  lemma ValidationSteersEngine(p: Product, token: ValidationToken, healthy: bool)
    requires Current(p, token) && p.underlay.epoch != 0 && p.underlay.HasPath()
    ensures var r := After(p, CompleteValidation(token, healthy)).roles[token.role];
            var action := DecideRole(r, p.underlay);
            if !healthy then action == ActionRestartToad && !r.healthy && r.validatedEpoch == 0
            else r.healthy && r.validatedEpoch == p.underlay.epoch && action == if IsBroken(r) then Restart(r) else ActionNone
    ensures var r := After(p, CompleteValidationPending(token, healthy)).roles[token.role];
            r.healthy == healthy && AsksForTransport(r, p.underlay)
  {
  }

  /**
   Which snapshots count. One without an epoch is numbered here if its identity is new; one with an older epoch is
   stale; one with the current epoch can only refresh the observation time; a newer one is taken as it is.
   */
  lemma UnderlayTaken(p: Product, next: Snapshot)
    ensures var p' := After(p, SetUnderlay(next));
            var same := p.underlay.v4 == next.v4 && p.underlay.v6 == next.v6 && p.underlay.bssid == next.bssid;
            if next.epoch == 0 then
              if same then p' == p
              else p'.underlay == next.(epoch := p.underlay.epoch + 1)
            else if next.epoch > p.underlay.epoch then p'.underlay == next
            else && p'.roles == p.roles
                 && p'.underlay == if same && next.epoch == p.underlay.epoch
                                   then p.underlay.(observedAt := next.observedAt) else p.underlay
  {
  }

  /** An accepted change of the underlay: no path means waiting, and a role that was up is taken over to the new path. */
  lemma UnderlaySteersEngine(p: Product, next: Snapshot, id: string)
    requires id in p.roles && p.roles[id].desired && p.underlay.epoch != 0 && next.epoch > p.underlay.epoch
    ensures var p' := After(p, SetUnderlay(next));
            var r, r' := p.roles[id], p'.roles[id];
            && p'.underlay == next
            && (next.v4.None? && next.v6.None? ==>
                  DecideRole(r', next) == ActionWait && r'.state == WaitingForUnderlay && r'.validatedEpoch == 0)
            && (next.v4.Some? || next.v6.Some? ==>
                  if (r.state == Ready || r.state == WaitingForUnderlay) && r.validatedEpoch != next.epoch
                  then AsksForTransport(r', next) && r'.state == Recovering && r'.validatedEpoch == 0
                  else r' == r)
    ensures var r' := After(p, RequestResumeValidation).roles[id];
            if p.roles[id].state == Ready
            then r'.validatedEpoch == 0 && (p.underlay.HasPath() ==> DecideRole(r', p.underlay) == ActionValidate)
            else r' == p.roles[id]
  {
  }

  datatype Step =
    | ObserveRoutes | ParkPrefixes | WithdrawSelected | Withdraw | Quiesce | ApplyEndpoint | Rebind | StartTransport
    | Validate | Publish | ResyncLeshy | ObserveRestore | FreezeSelected | RestoreSelected | UnfreezeSelected

  function TransportStep(action: Action): Step {
    if action == ActionRebind then Rebind else StartTransport
  }

  function LegacySequence(action: Action): seq<Step> {
    match action
    case ActionValidate => [Validate]
    case ActionStop => []
    case ActionWait => []
    case ActionNone => []
    case _ => [ObserveRoutes, ParkPrefixes, Withdraw, Quiesce, ApplyEndpoint, TransportStep(action), Validate, Publish,
               ResyncLeshy, ObserveRestore]
  }

  function ManagedSequence(action: Action): seq<Step> {
    match action
    case ActionValidate => [Validate]
    case ActionStop => []
    case ActionWait => []
    case ActionNone => []
    case _ => [FreezeSelected, ObserveRoutes, ParkPrefixes, WithdrawSelected, Withdraw, Quiesce, ApplyEndpoint,
               TransportStep(action), Validate, RestoreSelected, ObserveRestore, Publish, ResyncLeshy, UnfreezeSelected]
  }

  function Sequence(action: Action, managed: bool): seq<Step> {
    if managed then ManagedSequence(action) else LegacySequence(action)
  }

  /** The place of a step in a run that moves the transport. */
  function Place(managed: bool, step: Step): nat {
    if managed then ManagedPlace(step) else LegacyPlace(step)
  }

  function ManagedPlace(step: Step): nat {
    match step
    case FreezeSelected => 0
    case ObserveRoutes => 1
    case ParkPrefixes => 2
    case WithdrawSelected => 3
    case Withdraw => 4
    case Quiesce => 5
    case ApplyEndpoint => 6
    case Rebind => 7
    case StartTransport => 7
    case Validate => 8
    case RestoreSelected => 9
    case ObserveRestore => 10
    case Publish => 11
    case ResyncLeshy => 12
    case UnfreezeSelected => 13
  }

  function LegacyPlace(step: Step): nat {
    match step
    case ObserveRoutes => 0
    case ParkPrefixes => 1
    case Withdraw => 2
    case Quiesce => 3
    case ApplyEndpoint => 4
    case Rebind => 5
    case StartTransport => 5
    case Validate => 6
    case Publish => 7
    case ResyncLeshy => 8
    case ObserveRestore => 9
    case _ => 10
  }

  /** Every step was done at its place, so none was left out before it. */
  predicate InPlace(managed: bool, done: seq<Step>) {
    forall i | 0 <= i < |done| :: Place(managed, done[i]) == i
  }

  predicate IsBusy(action: Action) {
    action == ActionRebind || action == ActionRestartTransport || action == ActionRestartToad
  }

  lemma SequenceInPlace(action: Action, managed: bool, n: nat)
    requires IsBusy(action) && n <= |Sequence(action, managed)|
    ensures InPlace(managed, Sequence(action, managed)[..n])
  {
    var steps := Sequence(action, managed);
    assert InPlace(managed, steps);
    assert forall i | 0 <= i < n :: steps[..n][i] == steps[i];
  }

  /** In any part of the run so far, a is there before b. */
  predicate Precedes(done: seq<Step>, a: Step, b: Step) {
    forall j | 0 <= j < |done| && done[j] == b :: exists i | 0 <= i < j :: done[i] == a
  }

  lemma PlacedBefore(managed: bool, done: seq<Step>, a: Step, b: Step)
    requires InPlace(managed, done) && a != Rebind && a != StartTransport
    requires Place(managed, a) < Place(managed, b) && (managed || Place(managed, b) < 10)
    ensures Precedes(done, a, b)
  {
    forall j | 0 <= j < |done| && done[j] == b
      ensures exists i | 0 <= i < j :: done[i] == a
    {
      var i := Place(managed, a);
      assert Place(managed, done[i]) == i && done[i] == a;
    }
  }

  /**
   However far a managed run got: admission is closed before anything else happens, the parks are installed
   before a selected row is withdrawn, rows are withdrawn before the transport is touched, and restored only
   after validation; the parks are given up before publication, and admission reopens last.
   */
  lemma ManagedOrder(done: seq<Step>)
    requires InPlace(true, done)
    ensures done != [] ==> done[0] == FreezeSelected
    ensures Precedes(done, ParkPrefixes, WithdrawSelected)
    ensures Precedes(done, WithdrawSelected, Rebind) && Precedes(done, WithdrawSelected, StartTransport)
    ensures Precedes(done, Validate, RestoreSelected) && Precedes(done, RestoreSelected, ObserveRestore)
    ensures Precedes(done, ObserveRestore, Publish)
    ensures forall step :: step != UnfreezeSelected && step != Rebind && step != StartTransport ==>
                             Precedes(done, step, UnfreezeSelected)
  {
    assert done != [] ==> ManagedPlace(done[0]) == 0;
    PlacedBefore(true, done, ParkPrefixes, WithdrawSelected);
    PlacedBefore(true, done, WithdrawSelected, Rebind);
    PlacedBefore(true, done, WithdrawSelected, StartTransport);
    PlacedBefore(true, done, Validate, RestoreSelected);
    PlacedBefore(true, done, RestoreSelected, ObserveRestore);
    PlacedBefore(true, done, ObserveRestore, Publish);
    forall step | step != UnfreezeSelected && step != Rebind && step != StartTransport
      ensures Precedes(done, step, UnfreezeSelected)
    {
      PlacedBefore(true, done, step, UnfreezeSelected);
    }
  }

  /** Nothing needs to be done: the role is not wanted, cannot run, or is Ready, current and intact. */
  predicate IsIdle(r: RoleRuntime, underlay: Snapshot) {
    !CanRun(r, underlay) || (r.state == Ready && IsCurrent(r, underlay) && !IsBroken(r))
  }

  /** All that is needed is a look: a validation is due, or the role is current and intact but not Ready. */
  predicate NeedsLook(r: RoleRuntime, underlay: Snapshot) {
    && CanRun(r, underlay) && !IsDead(r)
    && (r.state == Validating || (IsCurrent(r, underlay) && !IsBroken(r) && r.state != Ready))
  }

  /** The steps of a run that was asked for this role on this underlay. */
  predicate StepsFit(steps: seq<Step>, managed: bool, r: RoleRuntime, underlay: Snapshot) {
    && (steps == [] <==> IsIdle(r, underlay))
    && (steps == [Validate] <==> NeedsLook(r, underlay))
    && (Rebind in steps <==>
          && CanRun(r, underlay) && !IsDead(r) && !IsBroken(r) && r.state != Validating && !IsCurrent(r, underlay)
          && r.toad.canRebind)
    && (StartTransport in steps <==> CanRun(r, underlay) && r.state != Validating
                                     && (IsDead(r) || IsBroken(r) || (!IsCurrent(r, underlay) && !r.toad.canRebind)))
    && (Rebind in steps || StartTransport in steps ==>
          steps[|steps| - 1] == if managed then UnfreezeSelected else ObserveRestore)
  }

  lemma DecisionFits(r: RoleRuntime, underlay: Snapshot, managed: bool)
    ensures StepsFit(Sequence(DecideRole(r, underlay), managed), managed, r, underlay)
  {
    var action := DecideRole(r, underlay);
    var steps := Sequence(action, managed);
    if IsBusy(action) {
      assert steps[if managed then 7 else 5] == TransportStep(action);
    }
  }

  datatype Failure =
    | StillParked | ValidationPending | PathUnavailable | ResolutionPending | RestartPending | Aborted | OtherFailure

  datatype Outcome = Done | Failure(failure: Failure)

  /** The state published for a failed run that was not cancelled. */
  function FailedState(failure: Failure): RoleState {
    match failure
    case RestartPending => Starting
    case OtherFailure => Failed
    case Aborted => Failed
    case _ => Recovering
  }

  datatype RecoveryState = RecoveryState(step: Option<Step>, operation: nat, epoch: nat, attempt: nat, failed: bool)

  /** One SetRecovery of the engine. */
  datatype Commit = Commit(recovery: RecoveryState, state: RoleState)

  /** What became of a run: its action and steps, how many the driver was asked for, and whether cancellation was seen. */
  datatype Trace = Trace(action: Action, steps: seq<Step>, attempted: nat, cancelled: bool)

  class RecoveryEngine {
    const managed: bool
    /** The driver calls made so far, and the engine's writes to the controller. */
    var attempted: seq<Step>
    var commits: seq<Commit>
    /** Whether the role's selected-route surface is closed. */
    var frozen: bool
    /** A cancellation was seen in this run. */
    ghost var aborted: bool

    constructor (managed: bool)
      ensures this.managed == managed && attempted == [] && commits == [] && !frozen
    {
      this.managed, attempted, commits, frozen := managed, [], [], false;
    }

    method Cancelled() returns (yes: bool)
      modifies `aborted
      ensures aborted == (old(aborted) || yes)
    {
      yes := *;
      aborted := aborted || yes;
    }

    /** One step through the driver, which may do anything but this: an attempted freeze closes, an unfreeze opens. */
    method Work(step: Step) returns (outcome: Outcome)
      modifies `attempted, `frozen, `aborted
      ensures attempted == old(attempted) + [step] || (attempted == old(attempted) && outcome == Failure(Aborted))
      ensures if attempted == old(attempted) then aborted else aborted == old(aborted)
      ensures frozen == if attempted == old(attempted) then old(frozen)
                        else if step == FreezeSelected then true
                        else if step == UnfreezeSelected then false else old(frozen)
      ensures step == UnfreezeSelected && attempted != old(attempted) ==> outcome == Done
    {
      var cancelled := Cancelled();
      if cancelled {
        return Failure(Aborted);
      }
      attempted := attempted + [step];
      outcome := *;
      if step == FreezeSelected {
        frozen := true;
      } else if step == UnfreezeSelected {
        frozen, outcome := false, Done;
      }
    }

    /** Runs the steps in order and stops at the first that fails; the current step is on record throughout. */
    method RunRecoverySteps(start: RecoveryState, operation: nat, epoch: nat, steps: seq<Step>)
      returns (outcome: Outcome, recovery: RecoveryState, ghost n: nat)
      modifies `attempted, `frozen, `aborted
      ensures aborted && !old(aborted) ==> outcome == Failure(Aborted)
      ensures n <= |steps| && attempted == old(attempted) + steps[..n]
      ensures frozen == Closed(steps[..n], old(frozen))
      ensures outcome == Done ==> n == |steps| && recovery.step == None
      ensures outcome != Done ==> recovery.failed && recovery.step.Some?
      ensures outcome != Done ==>
                || (n > 0 && recovery.step == Some(steps[n - 1]) && steps[n - 1] != UnfreezeSelected)
                || (outcome == Failure(Aborted) && n < |steps| && recovery.step == Some(steps[n]))
      ensures recovery.operation == operation && recovery.epoch == epoch && recovery.attempt == start.attempt + 1
    {
      recovery := start.(operation := operation, epoch := epoch, attempt := start.attempt + 1);
      n := 0;
      assert steps[..0] == [];
      for i := 0 to |steps|
        invariant aborted == old(aborted)
        invariant n == i && attempted == old(attempted) + steps[..i]
        invariant frozen == Closed(steps[..i], old(frozen))
        invariant recovery.operation == operation && recovery.epoch == epoch && recovery.attempt == start.attempt + 1
      {
        recovery := recovery.(step := Some(steps[i]), failed := false);
        assert steps[..i + 1] == steps[..i] + [steps[i]];
        ghost var before := attempted;
        outcome := Work(steps[i]);
        if attempted != before {
          n := i + 1;
        }
        if outcome != Done {
          recovery := recovery.(failed := true);
          return;
        }
      }
      assert steps[..|steps|] == steps;
      recovery := recovery.(step := None, failed := false);
      outcome := Done;
    }

    /** The write of a run that was not cancelled. */
    twostate predicate Committed(start: RecoveryState, operation: nat, epoch: nat, steps: seq<Step>, new outcome: Outcome,
                                 new n: nat)
      reads this
    {
      && |commits| == |old(commits)| + 1 && commits[..|old(commits)|] == old(commits)
      && var last := commits[|old(commits)|];
         && last.recovery.operation == operation && last.recovery.epoch == epoch
         && last.recovery.attempt == start.attempt + 1
         && if outcome == Done then last.state == Ready && last.recovery.step == None
            else && (last.state == Failed <==> outcome.failure == OtherFailure)
                 && (last.state == Starting <==> outcome.failure == RestartPending)
                 && (last.state == Failed || last.state == Starting || last.state == Recovering)
                 && 0 < n <= |steps| && last.recovery.step == Some(steps[n - 1])
    }

    /**
     Runs the steps and publishes the result, unless the run was cancelled: a cancellation was seen, or a step
     reported one. The first failure is what is reported.
     */
    method Execute(start: RecoveryState, operation: nat, epoch: nat, steps: seq<Step>)
      returns (outcome: Outcome, ghost n: nat, ghost cancelled: bool, ghost ran: Outcome)
      requires !aborted
      modifies this
      ensures cancelled <==> aborted || ran == Failure(Aborted)
      ensures outcome == if ran == Done && cancelled then Failure(Aborted) else ran
      ensures n <= |steps| && attempted == old(attempted) + steps[..n]
      ensures frozen == Closed(steps[..n], old(frozen))
      ensures outcome == Done ==> n == |steps| && !cancelled
      ensures if cancelled then commits == old(commits) && outcome != Done
              else Committed(start, operation, epoch, steps, outcome, n)
    {
      var recovery;
      outcome, recovery, n := RunRecoverySteps(start, operation, epoch, steps);
      ran := outcome;
      var abort := Cancelled();
      if outcome != Done {
        abort := abort || outcome == Failure(Aborted);
      }
      cancelled := abort;
      if abort {
        if outcome == Done {
          outcome := Failure(Aborted);
        }
        return;
      }
      commits := commits + [Commit(recovery, if outcome == Done then Ready else FailedState(outcome.failure))];
    }

    /**
     One recovery of a role. The action is the least disruptive one that serves the role, and the steps fit it.
     Any run keeps its safe order however far it gets, and a managed one leaves the role frozen exactly when it
     attempted the freeze and did not reach the unfreeze; a cancellation seen after the last step is the one
     failure that leaves it open. Ready is published exactly when every step succeeded and no cancellation was
     seen; a cancelled run publishes nothing; any other failure publishes one state and the step it failed at:
     the role is given up only for an unexpected failure, and a process replacement that has begun is waited for.
     */
    method Recover(start: RecoveryState, operation: nat, epoch: nat, role: RoleRuntime, underlay: Snapshot)
      returns (outcome: Outcome, ghost trace: Trace)
      modifies this
      ensures IsLeastDisruptive(trace.action, role, underlay) && StepsFit(trace.steps, managed, role, underlay)
      ensures trace.attempted <= |trace.steps| && attempted == old(attempted) + trace.steps[..trace.attempted]
      ensures outcome == Done ==> trace.attempted == |trace.steps| && !trace.cancelled
      ensures trace.cancelled ==> commits == old(commits) && outcome != Done
      ensures !IsIdle(role, underlay) ==> (trace.cancelled <==> aborted || outcome == Failure(Aborted))
      ensures IsIdle(role, underlay) ==> outcome == Done && commits == old(commits)
      ensures !IsIdle(role, underlay) && !trace.cancelled ==>
                Committed(start, operation, epoch, trace.steps, outcome, trace.attempted)
      ensures !IsIdle(role, underlay) && !NeedsLook(role, underlay) ==>
                InPlace(managed, trace.steps[..trace.attempted])
      ensures managed && !NeedsLook(role, underlay) && trace.attempted > 0 ==>
                (frozen <==> trace.attempted < |trace.steps|)
      ensures trace.attempted == 0 || !managed || NeedsLook(role, underlay) ==> frozen == old(frozen)
    {
      var action := DecideRole(role, underlay);
      var steps := Sequence(action, managed);
      DecisionIsLeast(role, underlay, action);
      DecisionFits(role, underlay, managed);
      trace := Trace(action, steps, 0, false);
      outcome := Done;
      if |steps| == 0 {
        return;
      }
      aborted := false;
      ghost var n, cancelled, ran;
      outcome, n, cancelled, ran := Execute(start, operation, epoch, steps);
      trace := Trace(action, steps, n, cancelled);
      OrderKept(action, managed, n, old(frozen));
    }
  }

  /** What a run of n steps keeps. */
  lemma OrderKept(action: Action, managed: bool, n: nat, before: bool)
    requires n <= |Sequence(action, managed)|
    ensures IsBusy(action) ==>
              InPlace(managed, Sequence(action, managed)[..n])
    ensures IsBusy(action) && managed && n > 0 ==>
              (Closed(Sequence(action, managed)[..n], before) <==> n < |Sequence(action, managed)|)
    ensures !IsBusy(action) || !managed || n == 0 ==> Closed(Sequence(action, managed)[..n], before) == before
  {
    if IsBusy(action) {
      SequenceInPlace(action, managed, n);
      if managed {
        if n > 0 {
          FrozenExactly(action, n, before);
        }
      } else {
        NeverClosed(LegacySequence(action), n, before);
      }
    } else {
      NeverClosed(Sequence(action, managed), n, before);
    }
  }

  lemma {:induction false} NeverClosed(steps: seq<Step>, n: nat, before: bool)
    requires n <= |steps| && FreezeSelected !in steps && UnfreezeSelected !in steps
    ensures Closed(steps[..n], before) == before
  {
    if n > 0 {
      assert steps[..n][..n - 1] == steps[..n - 1] && steps[..n][n - 1] in steps;
      NeverClosed(steps, n - 1, before);
    }
  }

  /** Whether the surface is closed after these steps were attempted. */
  function Closed(done: seq<Step>, before: bool): bool {
    if done == [] then before
    else
      var last := done[|done| - 1];
      if last == FreezeSelected then true
      else if last == UnfreezeSelected then false
      else Closed(done[..|done| - 1], before)
  }

  /**
   A managed run that got as far as the freeze leaves the role closed exactly when it did not reach the
   unfreeze. A cancellation seen after the last step is the one failure that leaves the role open.
   */
  lemma {:induction false} FrozenExactly(action: Action, n: nat, before: bool)
    requires IsBusy(action) && 0 < n <= |ManagedSequence(action)|
    ensures Closed(ManagedSequence(action)[..n], before) <==> n < |ManagedSequence(action)|
  {
    var steps := ManagedSequence(action);
    var done := steps[..n];
    assert done[..n - 1] == steps[..n - 1];
    if 1 < n < |steps| {
      FrozenExactly(action, n - 1, before);
    }
  }
}
