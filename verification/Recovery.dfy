/**
 End-to-end recovery of a healthy role, prefix by prefix: what holds of one prefix after each step, and
 that every step is possible from where the previous one ended.
 */
module Recovery {
  import opened Identity
  import opened Records
  import opened Protocol
  import opened Stages

  /** What a recovery aims for: the target, and the platform's normalization of identities and parks. */
  datatype Aim = Aim(target: Target, identityOf: Prefix -> RouteId, parkOf: Prefix -> ParkId)

  /** An Active, unparked record whose row is there, alone. */
  predicate Healthy(w: Stores, q: Prefix) {
    q in w.entries ==>
      var r := w.entries[q];
      && r.prefix == q && r.state == Active && r.owned == Some(r.desired) && r.park.None?
      && w.Rows(q) == {Route(r.desired)}
  }

  /** The platform gives q a valid park and, if q moves, a valid new identity on the interface that wins over it. */
  predicate Suitable(aim: Aim, w: Stores, q: Prefix) {
    q in w.entries ==>
      && aim.parkOf(q).Valid(q)
      && (Moves(aim, w, q) ==>
            && aim.identityOf(q).Valid(q) && aim.identityOf(q).ifIndex == aim.target.runtime.ifIndex
            && aim.identityOf(q).metric < MANAGED_PARK_METRIC)
  }

  predicate Ready(aim: Aim, w: Stores, q: Prefix) {
    Healthy(w, q) && Suitable(aim, w, q)
  }

  /**
   q moves to the new interface: its family is ready there, it is not on it already, and it is not a range that
   stems from DNS. The readiness of one family does not move the other.
   */
  predicate Moves(aim: Aim, w: Stores, q: Prefix) {
    q in w.entries ==>
      && w.entries[q].desired.ifIndex != aim.target.runtime.ifIndex
      && (q.addr.V4? ==> aim.target.runtime.v4Ready) && (q.addr.V6? ==> aim.target.runtime.v6Ready)
      && (w.entries[q].source == Dns ==> q.IsHost())
  }

  function ParkedRecord(aim: Aim, r: SelectedRoute): SelectedRoute {
    r.(park := Some(ProvenPark(aim.parkOf(r.prefix))))
  }

  predicate AfterPark(aim: Aim, w0: Stores, w: Stores, q: Prefix) {
    q in w0.entries ==>
      && q in w.entries && w.entries[q] == ParkedRecord(aim, w0.entries[q])
      && w.Rows(q) == {Route(w0.entries[q].desired), Park(aim.parkOf(q))}
  }

  predicate AfterWithdraw(aim: Aim, w0: Stores, w: Stores, q: Prefix) {
    q in w0.entries ==>
      && q in w.entries && w.entries[q] == ParkedRecord(aim, w0.entries[q])
      && w.Rows(q) == {Park(aim.parkOf(q))}
  }

  predicate AfterRestore(aim: Aim, w0: Stores, w: Stores, q: Prefix) {
    q in w0.entries ==>
      && q in w.entries
      && if Moves(aim, w0, q) then
           && w.entries[q] == Proven(Retargeted(aim.target, ParkedRecord(aim, w0.entries[q]), aim.identityOf(q)))
           && w.Rows(q) == {Route(aim.identityOf(q)), Park(aim.parkOf(q))}
         else
           AfterWithdraw(aim, w0, w, q)
  }

  /** Exactly the new row, or exactly the park: never both, never neither. */
  predicate RecoveredAt(aim: Aim, w0: Stores, w: Stores, q: Prefix) {
    q in w0.entries ==>
      && q in w.entries
      && if Moves(aim, w0, q) then
           && w.entries[q] == Proven(Retargeted(aim.target, w0.entries[q], aim.identityOf(q)))
           && w.Rows(q) == {Route(aim.identityOf(q))}
         else
           AfterWithdraw(aim, w0, w, q)
  }

  ghost predicate AllReady(aim: Aim, w: Stores) {
    forall q :: Ready(aim, w, q)
  }

  ghost predicate AllMove(aim: Aim, w: Stores) {
    forall q :: Moves(aim, w, q)
  }

  ghost predicate AllWithdrawn(aim: Aim, w0: Stores, w: Stores) {
    forall q :: AfterWithdraw(aim, w0, w, q)
  }

  ghost predicate AllRecovered(aim: Aim, w0: Stores, w: Stores) {
    forall q :: RecoveredAt(aim, w0, w, q)
  }

  /** One ready family does not move the other: its prefixes end with exactly their parks, and the recovery fails. */
  lemma UnreadyFamilyStaysParked(aim: Aim, w0: Stores, w: Stores, q: Prefix)
    requires AllRecovered(aim, w0, w) && q in w0.entries
    requires if q.addr.V4? then !aim.target.runtime.v4Ready else !aim.target.runtime.v6Ready
    ensures w.Rows(q) == {Park(aim.parkOf(q))} && q in w.entries && IsParked(w.entries[q]) && !AllMove(aim, w0)
  {
    assert RecoveredAt(aim, w0, w, q) && !Moves(aim, w0, q);
  }

  lemma ParkStage(aim: Aim, w0: Stores, w: Stores, q: Prefix)
    requires Ready(aim, w0, q) && w.entries.Keys == w0.entries.Keys
    requires KeptAt(true, w0, w, q) && ParkedAt(true, aim.parkOf, w0, w, q)
    ensures AfterPark(aim, w0, w, q) && ProtectedAt(true, w, q)
  {
    if q in w0.entries {
      assert Route(w0.entries[q].desired) in NotParks(w0.Rows(q));
      forall row | row in w.Rows(q)
        ensures row in {Route(w0.entries[q].desired), Park(aim.parkOf(q))}
      {
        assert if row.Park? then row.park in ParkIds(w.Rows(q)) else row in NotParks(w0.Rows(q));
      }
    }
  }

  lemma WithdrawStage(aim: Aim, w0: Stores, w1: Stores, w: Stores, q: Prefix)
    requires Ready(aim, w0, q) && w.entries == w1.entries
    requires AfterPark(aim, w0, w1, q) && WithdrawnAt(true, {}, w1, w, q)
    ensures AfterWithdraw(aim, w0, w, q)
    ensures w.entries.Keys == w0.entries.Keys ==> Reappliable(aim.target, aim.identityOf, w, q)
  {
  }

  lemma RestoreStage(aim: Aim, w0: Stores, w2: Stores, w: Stores, q: Prefix)
    requires Ready(aim, w0, q) && w.entries.Keys == w2.entries.Keys == w0.entries.Keys
    requires AfterWithdraw(aim, w0, w2, q)
    requires ReappliedAt(true, aim.target, aim.identityOf, w2, w, q) && ParkKeptAt(true, w2, w, q)
    ensures AfterRestore(aim, w0, w, q)
    ensures Unparkable(w, q) <==> Moves(aim, w0, q)
    ensures Unparkable(w, q) || NotYet(w, q)
  {
    if q in w0.entries && Moves(aim, w0, q) {
      assert aim.identityOf(q) in RouteIds(w.Rows(q)) && Park(aim.parkOf(q)) in NotRoutes(w2.Rows(q));
      forall row | row in w.Rows(q)
        ensures row in {Route(aim.identityOf(q)), Park(aim.parkOf(q))}
      {
        assert if row.Route? then row.route in RouteIds(w.Rows(q)) else row in NotRoutes(w2.Rows(q));
      }
    }
  }

  lemma UnparkStage(aim: Aim, w0: Stores, w3: Stores, w: Stores, q: Prefix)
    requires Ready(aim, w0, q) && w.entries.Keys == w3.entries.Keys == w0.entries.Keys
    requires AfterRestore(aim, w0, w3, q) && Unparkable(w3, q) == Moves(aim, w0, q)
    requires UnparkProgress(true, true, {}, w3, w, q)
    ensures RecoveredAt(aim, w0, w, q)
  {
  }
}
