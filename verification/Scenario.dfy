/**
 The fast path can answer for a row that is not there. The two runs below use nothing but the public calls of the
 manager and its reconciler, on a platform that never fails, with one outside edit.
 */
module Scenario {
  import opened Identity
  import opened Records
  import opened Stages
  import opened Recovery
  import opened SelectedRoutes
  import opened Observation
  import opened FastPath
  import opened Reconciler

  /** The role may move from the identity id1 to id2, with this park in between. */
  predicate Movable(p: Prefix, second: Runtime, id1: RouteId, id2: RouteId, park: ParkId) {
    && id1.Valid(p) && id2.Valid(p) && park.Valid(p)
    && second.ifIndex == id2.ifIndex != id1.ifIndex && id2.metric < MANAGED_PARK_METRIC
    && (if p.addr.V4? then second.v4Ready else second.v6Ready)
  }

  lemma OnlyKey(m: map<Prefix, SelectedRoute>, p: Prefix)
    requires p in m && m - {p} == map[]
    ensures m.Keys == {p}
  {
    assert forall q <- m :: q == p || q in m - {p};
  }

  /** A process that starts empty, on a platform that never fails. */
  method Started(p: Prefix, serial: bool) returns (r: SelectedRouteReconciler)
    ensures fresh(r) && fresh(r.manager) && r.Base() && r.Truth() && r.open.None? && r.doubt == {}
    ensures r.manager.reliable && r.manager.calm && !r.manager.quiet && r.terse && r.serial == serial
    ensures r.manager.entries == map[] && r.manager.kernel == map[] && r.tokens == map[]
    ensures !r.manager.frozen && !r.manager.restorePending && !r.restored
  {
    var m := new SelectedRouteManager("role", true, false, true, map[], p);
    r := new SelectedRouteReconciler(m, true, serial);
  }

  /** A role with one destination, applied and checkpointed. */
  method Applied(p: Prefix, zone: string, first: Runtime, id: RouteId) returns (r: SelectedRouteReconciler)
    requires id.Valid(p)
    ensures fresh(r) && fresh(r.manager) && r.manager.Valid()
    ensures r.manager.reliable && r.manager.calm && !r.manager.quiet && r.terse
    ensures r.manager.disk == r.manager.entries && r.manager.entries.Keys == {p}
    ensures var e := r.manager.entries[p];
            && e.prefix == p && e.zone == zone && e.source == Static && e.state == Active && e.desired == id
            && e.owned == Some(id) && e.park.None?
    ensures r.manager.Rows(p) == {Route(id)}
  {
    r := Started(p, true);
    var res := r.Ensure(p, zone, Static, first, id);
    assert res.Ok?;
    OnlyKey(r.manager.entries, p);
  }

  /** The same after a restart of the process. */
  method Restarted(p: Prefix, zone: string, first: Runtime, id: RouteId) returns (r: SelectedRouteReconciler)
    requires id.Valid(p)
    ensures fresh(r) && fresh(r.manager) && r.Base() && r.Truth() && r.open.None?
    ensures r.manager.reliable && r.manager.calm && !r.manager.quiet && r.terse
    ensures r.manager.restorePending && r.manager.entries.Keys == {p}
    ensures var e := r.manager.entries[p];
            && e.prefix == p && e.zone == zone && e.source == Static && e.state == Active && e.desired == id
            && e.owned == Some(id) && e.park.None?
    ensures r.manager.Rows(p) == {Route(id)}
  {
    r := Applied(p, zone, first, id);
    r.Restart();
  }

  /** Then a recovery onto another interface: the role is open again, and the startup restore still pending. */
  method Recovered(p: Prefix, zone: string, first: Runtime, second: Runtime, id1: RouteId, id2: RouteId, park: ParkId)
    returns (r: SelectedRouteReconciler)
    requires Movable(p, second, id1, id2, park)
    ensures fresh(r) && fresh(r.manager) && r.Base() && r.Truth() && r.open.None?
    ensures r.manager.reliable && r.manager.calm && !r.manager.quiet && r.terse
    ensures r.manager.restorePending && !r.manager.frozen && r.manager.entries.Keys == {p}
    ensures var e := r.manager.entries[p];
            && e.prefix == p && e.zone == zone && e.source == Static && e.state == Active && e.desired == id2
            && e.owned == Some(id2) && e.park.None?
    ensures r.manager.Rows(p) == {Route(id2)}
    ensures p in r.tokens ==> r.tokens[p].routeGeneration < r.manager.routeGeneration
  {
    r := Restarted(p, zone, first, id1);
    ghost var w := r.manager.World();
    ghost var aim := Aim(Target(second, r.manager.routeGeneration), q => id2, q => park);
    assert forall q :: Ready(aim, w, q) && Moves(aim, w, q);
    var res := r.Recover(second, q => id2, q => park);
    assert Aim(Target(second, aim.target.routeGeneration), q => id2, q => park) == aim;
    assert RecoveredAt(aim, w, r.manager.World(), p);
  }

  /** Then an Ensure, which mints the token of this generation. */
  method Minted(p: Prefix, zone: string, first: Runtime, second: Runtime, id1: RouteId, id2: RouteId, park: ParkId)
    returns (r: SelectedRouteReconciler)
    requires Movable(p, second, id1, id2, park)
    ensures fresh(r) && fresh(r.manager) && r.Base() && r.Truth() && r.open.None?
    ensures r.manager.reliable && r.manager.calm && !r.manager.quiet && r.terse
    ensures r.manager.restorePending && !r.manager.frozen && r.manager.entries.Keys == {p}
    ensures var e := r.manager.entries[p];
            && e.zone == zone && e.source == Static && e.state == Active && e.desired == id2
            && e.owned == Some(id2) && e.park.None? && e.toadGeneration == second.toadGeneration
    ensures p in r.tokens && r.tokens[p] == Token(second.toadGeneration, r.manager.routeGeneration, id2)
  {
    r := Recovered(p, zone, first, second, id1, id2, park);
    var res := r.Ensure(p, zone, Static, second, id2);
    assert res.Ok?;
    assert r.manager.entries - {p} == map[];
    OnlyKey(r.manager.entries, p);
  }

  /**
   Then somebody deletes the row, and an audit runs before the event is handled. While the startup restore is
   pending the audit visits nothing, publishes its sequence, and ends the startup restore, because every
   record has a token. Now the token path answers although the row is gone, on an open role with no restore
   pending.
   */
  method AnswersForMissingRow(p: Prefix, zone: string, first: Runtime, second: Runtime, id1: RouteId, id2: RouteId,
                              park: ParkId)
    returns (r: SelectedRouteReconciler)
    requires Movable(p, second, id1, id2, park)
    ensures fresh(r) && fresh(r.manager) && r.Base() && r.Truth() && r.open.None?
    ensures !r.manager.frozen && !r.manager.restorePending
    ensures r.Answers(p, zone, Static, second.toadGeneration, id2) && r.manager.Rows(p) == {}
  {
    r := Minted(p, zone, first, second, id1, id2, park);
    r.Edit(map[]);
    var audited := r.RunAudit(1, false, false);
  }

  /** A process that started empty, with its first Ensure read back and the token still to be stored. */
  method AwaitingToken(p: Prefix, zone: string, runtime: Runtime, id: RouteId) returns (r: SelectedRouteReconciler)
    requires id.Valid(p)
    ensures fresh(r) && fresh(r.manager) && r.Base() && r.Truth() && r.open == Some(Reading(p, []))
    ensures r.manager.reliable && r.manager.calm && !r.manager.quiet && r.terse && !r.serial
    ensures !r.restored && !r.manager.frozen && !r.manager.restorePending && r.manager.entries.Keys == {p}
    ensures var e := r.manager.entries[p];
            && e.zone == zone && e.source == Static && e.state == Active && e.desired == id && e.owned == Some(id)
            && e.toadGeneration == runtime.toadGeneration
    ensures r.manager.Rows(p) == {Route(id)}
  {
    r := Started(p, false);
    var res := r.Begin(p, zone, Static, runtime, id);
    assert res.Ok?;
    OnlyKey(r.manager.entries, p);
  }

  /**
   The second run needs no restart. An Ensure has read its row back when somebody deletes the row. An audit takes
   its kernel snapshot, with the event of the deletion counted, and its registry snapshot, in which the record is
   not proven yet; then it waits for the lock. The Ensure proves the record and stores its token. The audit finds
   a record that has changed, skips it, and publishes its sequence. Now the token path answers although the row
   is gone, in a process that started empty.
   */
  method AnswersAfterLateMint(p: Prefix, zone: string, runtime: Runtime, id: RouteId) returns (r: SelectedRouteReconciler)
    requires id.Valid(p)
    ensures fresh(r) && fresh(r.manager) && r.Base() && r.Truth() && r.open.None?
    ensures !r.restored && !r.manager.frozen && !r.manager.restorePending
    ensures r.Answers(p, zone, Static, runtime.toadGeneration, id) && r.manager.Rows(p) == {}
  {
    r := Deleted(p, zone, runtime, id);
    var audited := r.RunAudit(1, false, true);
  }

  /** Then somebody deletes the row. */
  method Deleted(p: Prefix, zone: string, runtime: Runtime, id: RouteId) returns (r: SelectedRouteReconciler)
    requires id.Valid(p)
    ensures fresh(r) && fresh(r.manager) && r.Base() && r.Truth() && r.OnlyOpen() && r.OpenPrefix() == {p}
    ensures r.manager.reliable && r.manager.calm && r.terse && !r.serial && !r.restored && !r.manager.frozen
    ensures p in r.manager.entries && var e := r.manager.entries[p];
            && e.zone == zone && e.source == Static && e.state == Active && e.desired == id && e.owned == Some(id)
            && e.toadGeneration == runtime.toadGeneration
    ensures r.manager.Rows(p) == {}
  {
    r := AwaitingToken(p, zone, runtime, id);
    r.Edit(map[]);
  }
}
