/**
 The ownership record of one (role, prefix) and its two coupled transaction machines.
 An illegal transition is `None`: it is an error and changes nothing.
 */
module Records {
  import opened Identity

  datatype Source = Dns | Static

  datatype RouteState = Pending | Applying | Active | Retiring

  datatype ParkState = ParkPending | ParkApplying | ParkActive | ParkRetiring

  datatype ParkTx = ParkTx(state: ParkState, desired: ParkId, owned: Option<ParkId>, retireDesired: bool) {

    /** What a restored park transaction must satisfy. */
    predicate Valid(prefix: Prefix) {
      && desired.Valid(prefix)
      && (state == ParkActive ==> owned == Some(desired))
      && (state != ParkRetiring ==> !retireDesired)
    }

    /** The park identities this transaction may find in the kernel and call its own. */
    predicate Authorizes(id: ParkId) {
      || owned == Some(id)
      || (id == desired && (state == ParkApplying || (state == ParkRetiring && retireDesired)))
    }
  }

  datatype SelectedRoute = SelectedRoute(
    role: string, zone: string, prefix: Prefix, source: Source,
    toadGeneration: nat, routeGeneration: nat, iface: string,
    desired: RouteId, owned: Option<RouteId>, state: RouteState, retireDesired: bool,
    park: Option<ParkTx>) {

    /** The two machine invariants that every checkpoint entry must satisfy. */
    predicate WellFormed() {
      && desired.Valid(prefix)
      && (state == Active ==> owned == Some(desired))
      && (state != Retiring ==> !retireDesired)
      && (park.Some? ==> park.value.Valid(prefix))
    }

    /** The selected identities whose kernel rows this record accounts for. */
    predicate Authorizes(id: RouteId) {
      || owned == Some(id)
      || (id == desired && (state == Applying || (state == Retiring && retireDesired)))
    }

    // ----- the selected-route machine -----

    /** Re-reserving an existing record. Only a changed identity demotes an Active record. */
    function Reserved(zone: string, source: Source, tg: nat, rg: nat, iface: string, desired: RouteId): SelectedRoute {
      this.(zone := zone, source := source, toadGeneration := tg, routeGeneration := rg, iface := iface,
            desired := desired,
            state := if state == Active && this.desired != desired then Pending else state)
    }

    function MarkApplying(): Option<SelectedRoute> {
      match state
      case Pending => Some(this.(state := Applying))
      case Applying => Some(this)
      case _ => None
    }

    function MarkActive(observed: RouteId): Option<SelectedRoute> {
      if (state == Applying || state == Active) && observed == desired then
        Some(this.(owned := Some(observed), state := Active))
      else
        None
    }

    function MarkRetiring(): Option<SelectedRoute> {
      if state == Retiring then None
      else Some(this.(retireDesired := state == Applying, state := Retiring))
    }

    function BeginRepair(): Option<SelectedRoute> {
      if state == Active then Some(this.(state := Pending, retireDesired := false)) else None
    }

    // ----- the park machine -----

    function ReservePark(desired: ParkId, forcePending: bool): Option<SelectedRoute> {
      if !desired.Valid(prefix) then None
      else if park.None? then Some(this.(park := Some(ParkTx(ParkPending, desired, None, false))))
      else if park.value.desired != desired || forcePending then
        Some(this.(park := Some(park.value.(state := ParkPending, retireDesired := false, desired := desired))))
      else
        Some(this)
    }

    function MarkParkApplying(): Option<SelectedRoute> {
      if park.Some? && park.value.state == ParkPending then
        Some(this.(park := Some(park.value.(state := ParkApplying))))
      else
        None
    }

    function MarkParkActive(observed: ParkId): Option<SelectedRoute> {
      if park.Some? && (park.value.state == ParkApplying || park.value.state == ParkActive)
         && observed == park.value.desired then
        Some(this.(park := Some(park.value.(owned := Some(observed), state := ParkActive))))
      else
        None
    }

    function MarkParkRetiring(): Option<SelectedRoute> {
      if park.Some? && (park.value.state == ParkApplying || park.value.state == ParkActive) then
        Some(this.(park := Some(park.value.(retireDesired := park.value.state == ParkApplying, state := ParkRetiring))))
      else
        None
    }

    function ClearPark(): Option<SelectedRoute> {
      if park.None? then Some(this)
      else if park.value.state == ParkPending || park.value.state == ParkRetiring then Some(this.(park := None))
      else None
    }
  }

  /** The first reservation of a prefix. */
  function FreshRecord(role: string, zone: string, prefix: Prefix, source: Source, tg: nat, rg: nat, iface: string,
                       desired: RouteId): SelectedRoute {
    SelectedRoute(role, zone, prefix, source, tg, rg, iface, desired, None, Pending, false, None)
  }

  // ----- evidence -----

  /** A re-reservation changes the identity of a mutation that may already be in the kernel. */
  predicate RewritesInFlight(r: SelectedRoute, desired: RouteId) {
    desired != r.desired && (r.state == Applying || (r.state == Retiring && r.retireDesired))
  }

  /** A re-reservation drops the only record of a row that may exist in the kernel. */
  predicate LosesEvidence(r: SelectedRoute, desired: RouteId) {
    RewritesInFlight(r, desired) && r.owned != Some(r.desired)
  }

  /** Re-reserving the park drops the only record of a park row that may exist in the kernel. */
  predicate LosesPark(t: ParkTx) {
    (t.state == ParkApplying || (t.state == ParkRetiring && t.retireDesired)) && t.owned != Some(t.desired)
  }

  /**
   Re-reserving keeps every authorized identity authorized exactly when it does not
   change the identity of an authorized, unproven mutation.
   */
  lemma ReserveKeepsEvidence(r: SelectedRoute, zone: string, source: Source, tg: nat, rg: nat, iface: string,
                             desired: RouteId)
    requires r.WellFormed()
    ensures (forall id :: r.Authorizes(id) ==> r.Reserved(zone, source, tg, rg, iface, desired).Authorizes(id))
            <==> !LosesEvidence(r, desired)
  {
    if LosesEvidence(r, desired) {
      assert r.Authorizes(r.desired);
    }
  }

  /**
   Re-reserving a park keeps every authorized park identity authorized exactly when it does not drop one
   whose mutation is in flight and unproven.
   */
  lemma ReserveParkKeepsEvidence(r: SelectedRoute, x: ParkId, force: bool)
    requires r.park.Some? && r.ReservePark(x, force).Some? && r.ReservePark(x, force).value != r
    ensures (forall id :: r.park.value.Authorizes(id) ==> r.ReservePark(x, force).value.park.value.Authorizes(id))
            <==> !LosesPark(r.park.value)
  {
    if LosesPark(r.park.value) {
      assert r.park.value.Authorizes(r.park.value.desired);
    }
  }
}
