/**
 The controller and the underlay authority as objects. Each method performs one call of the transition
 system in place; the underlay authority keeps manager and controller on the same epoch.
 */
module Products {
  import opened Identity
  import opened Netstate
  import C = Controller

  class ProductController {
    var roles: map<string, C.RoleRuntime>
    var underlay: Snapshot
    var revision: nat

    function State(): C.Product
      reads this
    {
      C.Product(roles, underlay)
    }

    /** One call was made; every change but a refreshed observation time is announced by a new revision. */
    twostate predicate Did(call: C.Call)
      reads this
    {
      && State() == C.After(old(State()), call)
      && revision >= old(revision)
      && (roles != old(roles) || underlay != old(underlay).(observedAt := underlay.observedAt) ==> revision > old(revision))
    }

    constructor (ids: set<string>)
      ensures C.IsStart(State()) && roles.Keys == ids
    {
      roles := map id | id in ids :: C.RoleRuntime(false, C.Stopped, 0, 0, 0, C.NO_TOAD, false);
      underlay, revision := ZERO, 1;
    }

    method Store(role: string, r: C.RoleRuntime)
      modifies `roles, `revision
      ensures roles == old(roles)[role := r] && revision == old(revision) + 1
    {
      roles, revision := roles[role := r], revision + 1;
    }

    method SetRoleDesired(role: string, enabled: bool) returns (known: bool)
      modifies this
      ensures known == (role in old(roles)) && Did(C.SetRoleDesired(role, enabled))
    {
      if role !in roles {
        return false;
      }
      var r := roles[role];
      if r.desired == enabled {
        assert roles == roles[role := r];
        return true;
      }
      Store(role, r.(desired := enabled, operation := r.operation + 1, state := if enabled then C.Starting else C.Stopped));
      return true;
    }

    method SetUnderlay(next: Snapshot)
      modifies this
      ensures Did(C.SetUnderlay(next))
    {
      var initial, accepted := underlay.epoch == 0, next;
      if next.epoch == 0 {
        var c := Compare(underlay, next);
        if !c.changed {
          return;
        }
        accepted := c.merged;
      } else if next.epoch < underlay.epoch {
        return;
      } else if next.epoch == underlay.epoch {
        if IdentityEqual(underlay, next) {
          underlay := underlay.(observedAt := next.observedAt);
        }
        return;
      }
      underlay := accepted;
      Spread(initial);
      revision := revision + 1;
    }

    /** One role on the new underlay. */
    method Moved(role: C.RoleRuntime, initial: bool) returns (r: C.RoleRuntime)
      ensures r == C.OnUnderlay(role, initial, underlay)
    {
      r := role;
      if r.desired {
        if underlay.v4.None? && underlay.v6.None? {
          r := r.(validatedEpoch := 0, state := C.WaitingForUnderlay);
        } else if !initial && (r.state == C.Ready || r.state == C.WaitingForUnderlay)
                  && r.validatedEpoch != underlay.epoch {
          r := r.(state := C.Recovering, validatedEpoch := 0);
        }
      }
    }

    /** Takes every role over to the new underlay, one after the other. */
    method Spread(initial: bool)
      modifies `roles
      ensures roles.Keys == old(roles).Keys
      ensures forall id <- old(roles) :: roles[id] == C.OnUnderlay(old(roles)[id], initial, underlay)
    {
      var todo := roles.Keys;
      while todo != {}
        invariant todo <= roles.Keys == old(roles).Keys
        invariant forall id <- old(roles) ::
                    if id in todo then roles[id] == old(roles)[id]
                    else roles[id] == C.OnUnderlay(old(roles)[id], initial, underlay)
        decreases |todo|
      {
        var id :| id in todo;
        var r := Moved(roles[id], initial);
        todo, roles := todo - {id}, roles[id := r];
      }
    }

    method ObserveToad(role: string, toad: C.Toad) returns (accepted: bool)
      modifies this
      ensures accepted == (role in old(roles) && C.Observable(old(roles)[role], toad)) && Did(C.ObserveToad(role, toad))
    {
      if role !in roles || (roles[role].toadGeneration != 0 && roles[role].toadGeneration != toad.generation) {
        return false;
      }
      var r := roles[role];
      if r.toadGeneration == toad.generation && r.toad == toad {
        assert roles == roles[role := r];
        return true;
      }
      r := r.(toadGeneration := toad.generation, toad := toad);
      if !toad.routeReady {
        r := r.(validatedEpoch := 0);
        if r.desired {
          if toad.state == C.ToadFailed {
            r := r.(state := C.Failed);
          } else if toad.state == C.ToadStopped {
            r := r.(state := C.Stopped);
          } else if r.state != C.Recovering {
            r := r.(state := C.Validating);
          }
        }
      } else {
        match toad.state {
          case ToadFailed => r := r.(state := C.Failed, validatedEpoch := 0);
          case ToadStopped => r := r.(state := C.Stopped, validatedEpoch := 0);
          case ToadRecovering => r := r.(state := C.Recovering, validatedEpoch := 0);
          case ToadQuiesced => r := r.(state := C.Recovering, validatedEpoch := 0);
          case ToadReconnecting => r := r.(state := C.Recovering, validatedEpoch := 0);
          case ToadOther(_) =>
          case _ =>
            if r.desired && r.validatedEpoch != underlay.epoch && r.state != C.Recovering {
              r := r.(state := C.Validating);
            }
        }
      }
      Store(role, r);
      return true;
    }

    method BeginValidation(role: string) returns (token: Option<C.ValidationToken>)
      modifies this
      ensures token == if role in old(roles) && C.MayValidate(old(roles)[role], old(underlay))
                       then Some(C.TokenFor(old(State()), role)) else None
      ensures Did(C.BeginValidation(role))
    {
      if role !in roles || !C.MayValidate(roles[role], underlay) {
        return None;
      }
      token := Some(C.ValidationToken(role, roles[role].operation, roles[role].toadGeneration, underlay.epoch));
      Store(role, roles[role].(state := C.Validating));
    }

    method CompleteValidation(token: C.ValidationToken, healthy: bool) returns (accepted: bool)
      modifies this
      ensures accepted == C.Current(old(State()), token) && Did(C.CompleteValidation(token, healthy))
    {
      if !C.Current(State(), token) {
        return false;
      }
      var r := roles[token.role].(healthy := healthy);
      if healthy {
        r := r.(state := C.Ready, validatedEpoch := token.underlayEpoch);
      } else {
        r := r.(state := C.Failed, validatedEpoch := 0);
      }
      Store(token.role, r);
      return true;
    }

    method CompleteValidationPending(token: C.ValidationToken, healthy: bool) returns (accepted: bool)
      modifies this
      ensures accepted == C.Current(old(State()), token) && Did(C.CompleteValidationPending(token, healthy))
    {
      if !C.Current(State(), token) {
        return false;
      }
      Store(token.role, roles[token.role].(healthy := healthy, state := C.Recovering, validatedEpoch := 0));
      return true;
    }

    /** Invalidates every Ready role after a resume. */
    method RequestResumeValidation()
      modifies this
      ensures Did(C.RequestResumeValidation)
    {
      var todo := roles.Keys;
      while todo != {}
        invariant todo <= roles.Keys && underlay == old(underlay) && revision == old(revision)
        invariant roles == map id | id in old(roles) :: if id in todo then old(roles)[id] else C.Resumed(old(roles)[id])
        decreases |todo|
      {
        var id :| id in todo;
        todo := todo - {id};
        var r := roles[id];
        if r.desired && r.state == C.Ready {
          roles := roles[id := r.(validatedEpoch := 0, state := C.Validating)];
        }
      }
      revision := revision + 1;
    }

    method RequestRoleValidation(role: string) returns (accepted: bool)
      modifies this
      ensures Did(C.RequestRoleValidation(role)) && accepted == (
                role in old(roles) && old(roles)[role].desired && old(roles)[role].toadGeneration != 0
                && old(roles)[role].toad.routeReady)
    {
      if role !in roles || !roles[role].desired || roles[role].toadGeneration == 0 || !roles[role].toad.routeReady {
        return false;
      }
      Store(role, roles[role].(validatedEpoch := 0, state := C.Validating));
      return true;
    }

    method MarkRecovering(role: string) returns (accepted: bool)
      modifies this
      ensures Did(C.MarkRecovering(role)) && accepted == (role in old(roles) && old(roles)[role].desired)
    {
      if role !in roles || !roles[role].desired {
        return false;
      }
      Store(role, roles[role].(validatedEpoch := 0, state := C.Recovering));
      return true;
    }

    method BeginToadGeneration(role: string) returns (known: bool)
      modifies this
      ensures known == (role in old(roles)) && Did(C.BeginToadGeneration(role))
    {
      if role !in roles {
        return false;
      }
      var r := roles[role].(toadGeneration := 0, toad := C.NO_TOAD, validatedEpoch := 0, healthy := false);
      if r.desired {
        r := r.(state := C.Starting);
      }
      Store(role, r);
      return true;
    }

    method SetRecovery(role: string, state: C.RoleState) returns (known: bool)
      modifies this
      ensures known == (role in old(roles)) && Did(C.SetRecovery(role, state))
    {
      if role !in roles {
        return false;
      }
      Store(role, roles[role].(state := state));
      return true;
    }

    method Complete(role: string, op: nat, epoch: nat, ok: bool) returns (accepted: bool)
      modifies this
      ensures Did(C.Complete(role, op, epoch, ok))
      ensures accepted == (role in old(roles) && old(roles)[role].operation == op && old(underlay).epoch == epoch)
    {
      if role !in roles || roles[role].operation != op || underlay.epoch != epoch {
        return false;
      }
      if ok {
        Store(role, roles[role].(state := C.Ready, validatedEpoch := epoch));
      } else {
        Store(role, roles[role].(state := C.Failed));
      }
      return true;
    }
  }

  /** The manager's side of the underlay: it numbers the snapshots and publishes them to the controller. */
  class UnderlayAuthority {
    const product: ProductController
    var underlay: Snapshot
    /** Every snapshot seen so far, from the zero snapshot on. */
    ghost var history: seq<Snapshot>

    /** Manager and controller agree, and the epoch counts the identity changes seen. */
    ghost predicate Valid()
      reads this, product
    {
      && history != [] && history[0] == ZERO
      && IdentityEqual(underlay, history[|history| - 1])
      && underlay.epoch == Changes(history)
      && product.underlay.epoch == underlay.epoch && IdentityEqual(product.underlay, underlay)
    }

    constructor (product: ProductController)
      requires product.underlay == ZERO
      ensures Valid() && this.product == product && history == [ZERO]
    {
      this.product, underlay, history := product, ZERO, [ZERO];
    }

    /** What the controller makes of the change: the new underlay first, then the invalidation after a resume. */
    function Followed(p: C.Product, next: Snapshot, changed: bool, resume: bool): C.Product {
      var taken := if changed then C.After(p, C.SetUnderlay(next)) else p;
      if resume then C.After(taken, C.RequestResumeValidation) else taken
    }

    method ApplyUnderlayChange(snapshot: Snapshot, resume: bool)
      requires Valid()
      modifies this, product
      ensures Valid() && history == old(history) + [snapshot]
      ensures underlay.epoch >= old(underlay.epoch)
      ensures var changed := old(underlay.v4) != snapshot.v4 || old(underlay.v6) != snapshot.v6
                             || old(underlay.bssid) != snapshot.bssid;
              && underlay == (if changed then snapshot.(epoch := old(underlay.epoch) + 1)
                              else if resume then old(underlay).(observedAt := snapshot.observedAt) else old(underlay))
              && product.State() == Followed(old(product.State()), underlay, changed, resume)
      ensures resume ==> forall id <- product.roles :: product.roles[id].desired ==> product.roles[id].state != C.Ready
      ensures !resume && IdentityEqual(old(underlay), snapshot) ==> product.State() == old(product.State())
    {
      ChangesAppend(history, snapshot);
      history := history + [snapshot];
      var c := Compare(underlay, snapshot);
      if !c.changed && !resume {
        return;
      }
      if c.changed {
        underlay := c.merged;
        product.SetUnderlay(c.merged);
      } else {
        underlay := underlay.(observedAt := snapshot.observedAt);
      }
      if resume {
        product.RequestResumeValidation();
      }
    }
  }
}
