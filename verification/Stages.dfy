/**
 What each recovery step does to one prefix, as predicates over the stores before and after the step, and
 the lemmas that carry them through the loops over a role.
 */
module Stages {
  import opened Identity
  import opened Records
  import opened Planner
  import opened Protocol

  function Lookup(m: map<Prefix, SelectedRoute>, p: Prefix): Option<SelectedRoute> {
    if p in m then Some(m[p]) else None
  }

  predicate KeyOk(m: map<Prefix, SelectedRoute>, p: Prefix) {
    p in m ==> m[p].prefix == p && m[p].WellFormed()
  }

  ghost predicate WellKeyed(m: map<Prefix, SelectedRoute>) {
    forall p :: KeyOk(m, p)
  }

  /** The record once its Desired row was read back. */
  function Proven(r: SelectedRoute): SelectedRoute {
    r.(owned := Some(r.desired), state := Active)
  }

  function ProvenPark(id: ParkId): ParkTx {
    ParkTx(ParkActive, id, Some(id), false)
  }

  function WithProvenPark(r: SelectedRoute): SelectedRoute
    requires r.park.Some?
  {
    r.(park := Some(ProvenPark(r.park.value.desired)))
  }

  /** Of the selected rows exactly the Desired one is there; besides it only parks of the record. */
  predicate Exact(rows: set<Row>, r: SelectedRoute) {
    Route(r.desired) in rows && forall row <- rows :: row == Route(r.desired) || (row.Park? && RowRecognized(row, r))
  }

  lemma ExactUnparked(rows: set<Row>, r: SelectedRoute)
    requires Exact(rows, r) && r.park.None?
    ensures rows == {Route(r.desired)}
  {
  }

  function RowsIn(kernel: map<Prefix, set<Row>>, p: Prefix): set<Row> {
    if p in kernel then kernel[p] else {}
  }

  /** Only the rows of p may differ. */
  ghost predicate RowsKeptBut(k: map<Prefix, set<Row>>, k': map<Prefix, set<Row>>, p: Prefix) {
    forall q :: q != p ==> RowsIn(k', q) == RowsIn(k, q)
  }

  // ----- what each recovery step does to one prefix -----

  /** The registry slice and the kernel at one moment. */
  datatype Stores = Stores(entries: map<Prefix, SelectedRoute>, kernel: map<Prefix, set<Row>>) {
    function Rows(p: Prefix): set<Row> {
      RowsIn(kernel, p)
    }
  }

  /** Every row is accounted for by the record. */
  predicate Recognizes(r: SelectedRoute, rows: set<Row>) {
    forall row <- rows :: RowRecognized(row, r)
  }

  /** The record with a park transaction for x that has not been authorized yet. */
  function PendingPark(r: SelectedRoute, x: ParkId): SelectedRoute {
    r.(park := Some(ParkTx(ParkPending, x, if r.park.Some? then r.park.value.owned else None, false)))
  }

  lemma PendingParkRecognizes(r: SelectedRoute, x: ParkId, rows: set<Row>)
    requires r.WellFormed()
    requires r.park.Some? ==> r.park.value.state in {ParkPending, ParkActive}
    ensures Recognizes(PendingPark(r, x), rows) <==> Recognizes(r, rows)
  {
  }

  function ApplyingPark(r: SelectedRoute): SelectedRoute
    requires r.park.Some?
  {
    r.(park := Some(r.park.value.(state := ParkApplying)))
  }

  lemma ApplyingParkRecognizes(r: SelectedRoute, rows: set<Row>)
    requires Recognizes(r, rows) && r.park.Some? && r.park.value.state == ParkPending
    ensures Recognizes(ApplyingPark(r), rows)
  {
  }

  lemma RetiredParkRecognizes(r: SelectedRoute, rows: set<Row>)
    requires r.park.Some?
    ensures Recognizes(r.(park := None), rows - ParkRows(r.park.value)) <==> Recognizes(r, rows)
  {
    var rest := rows - ParkRows(r.park.value);
    forall row | row in rows
      ensures RowRecognized(row, r) <==> row in ParkRows(r.park.value) || RowRecognized(row, r.(park := None))
    {
    }
    if Recognizes(r.(park := None), rest) {
      forall row | row in rows
        ensures RowRecognized(row, r)
      {
        assert row in rest || row in ParkRows(r.park.value);
      }
    }
  }

  lemma ActiveParkAlone(r: SelectedRoute, rows: set<Row>)
    requires r.park.Some? && r.park.value.state == ParkActive && r.park.value.Valid(r.prefix)
    requires Recognizes(r, rows) && Park(r.park.value.desired) in rows
    ensures ParkIds(rows) == {r.park.value.desired}
  {
  }

  predicate IsWedged(r: SelectedRoute) {
    r.state != Retiring && r.park.Some? && r.park.value.state == ParkApplying
  }

  function NotParks(rows: set<Row>): set<Row> {
    set row | row in rows && !row.Park?
  }

  predicate SameButParks(rows0: set<Row>, rows: set<Row>) {
    NotParks(rows0) == NotParks(rows)
  }

  /** Outside its park, prefix q is as it was. */
  ghost predicate KeptAt(calm: bool, w0: Stores, w: Stores, q: Prefix) {
    q in w0.entries && q in w.entries ==>
      && w.entries[q] == w0.entries[q].(park := w.entries[q].park)
      && (calm ==> SameButParks(w0.Rows(q), w.Rows(q)))
  }

  /** Prefix q is parked: proven in the registry and, without outside edits, present in the kernel. */
  ghost predicate ParkedAt(calm: bool, parkOf: Prefix -> ParkId, w0: Stores, w: Stores, q: Prefix) {
    q in w0.entries && q in w.entries && w0.entries[q].state != Retiring ==>
      && !IsWedged(w0.entries[q])
      && w.entries[q].park == Some(ProvenPark(parkOf(q)))
      && (calm ==> Park(parkOf(q)) in w.Rows(q))
      && (calm && Recognizes(w0.entries[q], w0.Rows(q)) ==>
            ParkIds(w.Rows(q)) == {parkOf(q)})
  }

  /** The exact park of the record is proven and live already. */
  predicate AlreadyParked(r: SelectedRoute, x: ParkId, rows: set<Row>) {
    r.park.Some? && r.park.value.state == ParkActive && r.park.value.desired == x && Park(x) in rows
  }

  /** Parking q can succeed: it is parked, or its park is valid, not stuck, and no foreign row is in the way. */
  predicate Parkable(parkOf: Prefix -> ParkId, w: Stores, q: Prefix) {
    q in w.entries && w.entries[q].state != Retiring ==>
      || AlreadyParked(w.entries[q], parkOf(q), w.Rows(q))
      || (!IsWedged(w.entries[q]) && parkOf(q).Valid(q) && Recognizes(w.entries[q], w.Rows(q)))
  }

  ghost predicate AllParkable(parkOf: Prefix -> ParkId, w: Stores) {
    forall q :: Parkable(parkOf, w, q)
  }

  ghost predicate ParkProgress(calm: bool, reliable: bool, parkOf: Prefix -> ParkId, todo: set<Prefix>,
                               w0: Stores, w: Stores, q: Prefix) {
    && KeptAt(calm, w0, w, q)
    && (q in todo && q in w0.entries && q in w.entries ==>
          w.entries[q] == w0.entries[q] && (calm ==> w.Rows(q) == w0.Rows(q)))
    && (q !in todo ==> ParkedAt(calm, parkOf, w0, w, q) && (calm && reliable ==> Parkable(parkOf, w0, q)))
  }

  /** One step of a loop over the role touches the record and the rows of one prefix only. */
  ghost predicate OnlyAt(calm: bool, w: Stores, w': Stores, p: Prefix) {
    && p in w.entries && p in w'.entries && w'.entries == w.entries[p := w'.entries[p]]
    && (calm ==> RowsKeptBut(w.kernel, w'.kernel, p))
  }

  lemma ParkAdvances(calm: bool, reliable: bool, parkOf: Prefix -> ParkId, todo: set<Prefix>, p: Prefix,
                     w0: Stores, w: Stores, w': Stores)
    requires p in todo && OnlyAt(calm, w, w', p) && KeptAt(calm, w, w', p)
    requires w.entries.Keys == w0.entries.Keys
    requires forall q :: ParkProgress(calm, reliable, parkOf, todo, w0, w, q)
    ensures forall q :: KeptAt(calm, w0, w', q)
    ensures calm ==> Parkable(parkOf, w, p) == Parkable(parkOf, w0, p)
    ensures ParkedAt(calm, parkOf, w, w', p) && (calm && reliable ==> Parkable(parkOf, w, p)) ==>
              forall q :: ParkProgress(calm, reliable, parkOf, todo - {p}, w0, w', q)
  {
    assert ParkProgress(calm, reliable, parkOf, todo, w0, w, p);
    forall q
      ensures KeptAt(calm, w0, w', q)
      ensures ParkedAt(calm, parkOf, w, w', p) && (calm && reliable ==> Parkable(parkOf, w, p)) ==>
                ParkProgress(calm, reliable, parkOf, todo - {p}, w0, w', q)
    {
      assert ParkProgress(calm, reliable, parkOf, todo, w0, w, q);
    }
  }

  predicate IsParked(r: SelectedRoute) {
    r.park.Some? && r.park.value.state == ParkActive && r.park.value.owned == Some(r.park.value.desired)
  }

  /** The record of q is protected by its exact park, if it needs protection at all. */
  predicate ProtectedAt(calm: bool, w: Stores, q: Prefix) {
    q in w.entries && w.entries[q].state != Retiring ==>
      IsParked(w.entries[q]) && (calm ==> Park(w.entries[q].park.value.desired) in w.Rows(q))
  }

  /** The rows of q after the withdrawal: the selected rows are gone, everything else is there. */
  predicate WithdrawnAt(calm: bool, todo: set<Prefix>, w0: Stores, w: Stores, q: Prefix) {
    calm && q in w0.entries ==>
      w.Rows(q) == if q in todo || w0.entries[q].state == Retiring then w0.Rows(q)
                   else w0.Rows(q) - RouteRows(w0.entries[q])
  }

  ghost predicate AllProtected(calm: bool, w: Stores) {
    forall q :: ProtectedAt(calm, w, q)
  }

  ghost predicate AllWithdrawnAt(calm: bool, w0: Stores, w: Stores) {
    forall q :: WithdrawnAt(calm, {}, w0, w, q)
  }

  /** One turn of the withdrawal loop: only the authorized selected rows of p may go, and on success all of them. */
  lemma WithdrawAdvances(calm: bool, todo: set<Prefix>, p: Prefix, w0: Stores, w: Stores, w': Stores, ok: bool)
    requires p in todo && p in w.entries && w.entries == w0.entries == w'.entries
    requires calm ==> RowsKeptBut(w.kernel, w'.kernel, p)
    requires calm ==> w.Rows(p) - RouteRows(w.entries[p]) <= w'.Rows(p) <= w.Rows(p)
    requires calm && ok ==>
               w'.Rows(p) == if w.entries[p].state == Retiring then w.Rows(p) else w.Rows(p) - RouteRows(w.entries[p])
    requires forall q :: ProtectedAt(calm, w, q)
    requires forall q :: WithdrawnAt(calm, todo, w0, w, q)
    ensures forall q :: ProtectedAt(calm, w', q)
    ensures ok ==> forall q :: WithdrawnAt(calm, todo - {p}, w0, w', q)
  {
    forall q
      ensures ProtectedAt(calm, w', q)
      ensures ok ==> WithdrawnAt(calm, todo - {p}, w0, w', q)
    {
      assert ProtectedAt(calm, w, q) && WithdrawnAt(calm, todo, w0, w, q);
    }
  }

  /** No other row than the record's own park disputes the restored selected row, and that row wins. */
  predicate Winning(r: SelectedRoute, rows: set<Row>)
    requires r.park.Some?
  {
    && r.state == Active
    && (Park(r.park.value.desired) in rows ==>
          && (forall row <- rows :: !row.Foreign? && (row.Park? ==> row.park == r.park.value.desired))
          && Route(r.desired) in rows
          && r.desired.metric < r.park.value.desired.metric)
  }

  /** The park of the record may be given up: the selected row is proven, present and wins. */
  predicate Restored(r: SelectedRoute, rows: set<Row>)
    requires r.park.Some?
  {
    Winning(r, rows) && Route(r.desired) in rows
  }

  /** Whether one pass over the role clears the park of q. */
  predicate Unparkable(w: Stores, q: Prefix) {
    q in w.entries && w.entries[q].park.Some? ==>
      || w.entries[q].park.value.state == ParkRetiring
      || (w.entries[q].park.value.state == ParkActive && Restored(w.entries[q], w.Rows(q)))
  }

  /** The pass leaves the park of q in place without an error: the record is not proven, or its row is missing. */
  predicate NotYet(w: Stores, q: Prefix) {
    && q in w.entries && w.entries[q].park.Some? && w.entries[q].park.value.state == ParkActive
    && (|| w.entries[q].state != Active
        || (&& Park(w.entries[q].park.value.desired) in w.Rows(q)
            && Route(w.entries[q].desired) !in w.Rows(q)
            && forall row <- w.Rows(q) :: !row.Foreign? && (row.Park? ==> row.park == w.entries[q].park.value.desired)))
  }

  /** The park of q is gone from the registry, and its rows and no others from the kernel. */
  predicate UnparkedAt(calm: bool, w0: Stores, w: Stores, q: Prefix) {
    q in w0.entries && q in w.entries ==>
      && w.entries[q] == w0.entries[q].(park := None)
      && (w0.entries[q].park.Some? && w0.entries[q].park.value.state == ParkActive ==> w0.entries[q].state == Active)
      && (calm ==> Unparkable(w0, q))
      && (calm ==> w.Rows(q) == if w0.entries[q].park.None? then w0.Rows(q)
                                 else w0.Rows(q) - ParkRows(w0.entries[q].park.value))
  }

  ghost predicate UnparkProgress(calm: bool, reliable: bool, todo: set<Prefix>, w0: Stores, w: Stores, q: Prefix) {
    && (calm && reliable && q in w.entries && Unparkable(w0, q) ==> q in todo || w.entries[q].park.None?)
    && KeptAt(calm, w0, w, q)
    && (q in todo && q in w0.entries && q in w.entries ==>
          w.entries[q] == w0.entries[q] && (calm ==> w.Rows(q) == w0.Rows(q)))
    && (q !in todo && q in w.entries && w.entries[q].park.None? ==> UnparkedAt(calm, w0, w, q))
    && (q !in todo && q in w0.entries && q in w.entries && w.entries[q].park.Some? ==>
          w.entries[q] == w0.entries[q] && (calm ==> w.Rows(q) == w0.Rows(q)))
  }

  /** One successful turn either unparks p or leaves it as it was. */
  predicate UnparkTurned(calm: bool, w: Stores, w': Stores, p: Prefix) {
    || UnparkedAt(calm, w, w', p)
    || (&& p in w.entries && p in w'.entries && w'.entries[p] == w.entries[p]
        && (calm ==> w'.Rows(p) == w.Rows(p)) && w.entries[p].park.Some?)
  }

  lemma UnparkAdvances(calm: bool, reliable: bool, todo: set<Prefix>, p: Prefix, w0: Stores, w: Stores, w': Stores)
    requires p in todo && OnlyAt(calm, w, w', p) && KeptAt(calm, w, w', p)
    requires forall q :: UnparkProgress(calm, reliable, todo, w0, w, q)
    requires w.entries.Keys == w0.entries.Keys
    requires calm && reliable && Unparkable(w, p) ==> w'.entries[p].park.None?
    ensures forall q :: KeptAt(calm, w0, w', q)
    ensures UnparkTurned(calm, w, w', p) ==> forall q :: UnparkProgress(calm, reliable, todo - {p}, w0, w', q)
    ensures calm ==> Unparkable(w0, p) == Unparkable(w, p) && NotYet(w0, p) == NotYet(w, p)
  {
    assert UnparkProgress(calm, reliable, todo, w0, w, p);
    forall q
      ensures KeptAt(calm, w0, w', q)
      ensures UnparkTurned(calm, w, w', p) ==> UnparkProgress(calm, reliable, todo - {p}, w0, w', q)
    {
      assert UnparkProgress(calm, reliable, todo, w0, w, q);
    }
  }

  // ----- restoration onto the current interface -----

  /** The current interface, process generation and ready families of the role. */
  datatype Runtime = Runtime(ifIndex: int, iface: string, toadGeneration: nat, v4Ready: bool, v6Ready: bool)

  /** What a restoration works towards. */
  datatype Target = Target(runtime: Runtime, routeGeneration: nat)

  /** Records that a restoration leaves alone, among them every record already proven on the interface. */
  predicate Skips(t: Target, r: SelectedRoute) {
    || (r.source == Dns && !r.prefix.IsHost())
    || r.state == Retiring
    || !(if r.prefix.addr.V4? then t.runtime.v4Ready else t.runtime.v6Ready)
    || (r.state == Active && r.owned == Some(r.desired) && r.desired.ifIndex == t.runtime.ifIndex)
  }

  function Retargeted(t: Target, r: SelectedRoute, id: RouteId): SelectedRoute {
    r.Reserved(r.zone, r.source, t.runtime.toadGeneration, t.routeGeneration, t.runtime.iface, id)
  }

  predicate Reappliable(t: Target, identityOf: Prefix -> RouteId, w: Stores, q: Prefix) {
    q in w.entries && !Skips(t, w.entries[q]) ==>
      identityOf(q).Valid(q) && Accepts(w.Rows(q), Retargeted(t, w.entries[q], identityOf(q)))
  }

  ghost predicate AllReappliable(t: Target, identityOf: Prefix -> RouteId, w: Stores) {
    forall q :: Reappliable(t, identityOf, w, q)
  }

  function NotRoutes(rows: set<Row>): set<Row> {
    set row | row in rows && !row.Route?
  }

  predicate SameButRoutes(rows0: set<Row>, rows: set<Row>) {
    NotRoutes(rows0) == NotRoutes(rows)
  }

  /** A restoration touches neither the park transaction nor any row that is not a selected route. */
  ghost predicate ParkKeptAt(calm: bool, w0: Stores, w: Stores, q: Prefix) {
    q in w0.entries && q in w.entries ==>
      && w.entries[q].park == w0.entries[q].park
      && (calm ==> SameButRoutes(w0.Rows(q), w.Rows(q)))
  }

  ghost predicate ReappliedAt(calm: bool, t: Target, identityOf: Prefix -> RouteId, w0: Stores, w: Stores, q: Prefix) {
    q in w0.entries && q in w.entries ==>
      if Skips(t, w0.entries[q]) then
        w.entries[q] == w0.entries[q] && (calm ==> w.Rows(q) == w0.Rows(q))
      else
        && w.entries[q] == Proven(Retargeted(t, w0.entries[q], identityOf(q)))
        && (calm ==> RouteIds(w.Rows(q)) == {identityOf(q)})
  }

  /**
   Records that a restoration must leave as they are, whether it succeeds or not: those of a family that is not
   ready, ranges that stem from DNS, retiring ones, and those proven on the interface already.
   */
  predicate StaysPut(runtime: Runtime, w: Stores, q: Prefix) {
    q in w.entries &&
    var r := w.entries[q];
    || (q.addr.V4? && !runtime.v4Ready)
    || (q.addr.V6? && !runtime.v6Ready)
    || (r.source == Dns && !q.IsHost())
    || r.state == Retiring
    || (r.state == Active && r.desired.ifIndex == runtime.ifIndex)
  }

  ghost predicate PutAt(calm: bool, runtime: Runtime, w0: Stores, w: Stores, q: Prefix) {
    StaysPut(runtime, w0, q) ==>
      Lookup(w.entries, q) == Lookup(w0.entries, q) && (calm ==> w.Rows(q) == w0.Rows(q))
  }

  /** What a successful restoration makes of every other record: proven on the requested identity, same intent. */
  ghost predicate RestoredAt(calm: bool, t: Target, identityOf: Prefix -> RouteId, w0: Stores, w: Stores, q: Prefix) {
    q in w0.entries && q in w.entries && !StaysPut(t.runtime, w0, q) ==>
      var r0, r := w0.entries[q], w.entries[q];
      && r.state == Active && r.desired == identityOf(q) && r.owned == Some(identityOf(q))
      && r.zone == r0.zone && r.source == r0.source && r.park == r0.park
      && r.toadGeneration == t.runtime.toadGeneration && r.routeGeneration == t.routeGeneration
      && r.iface == t.runtime.iface
      && (calm ==> RouteIds(w.Rows(q)) == {identityOf(q)})
  }

  /** The skip rule of the restoration is exactly this, on records that pass validation. */
  lemma RestorationIsExact(calm: bool, t: Target, identityOf: Prefix -> RouteId, w0: Stores, w: Stores, q: Prefix)
    requires KeyOk(w0.entries, q) && w.entries.Keys == w0.entries.Keys && ParkKeptAt(calm, w0, w, q)
    ensures SkippedAt(calm, t, w0, w, q) ==> PutAt(calm, t.runtime, w0, w, q)
    ensures ReappliedAt(calm, t, identityOf, w0, w, q) ==> RestoredAt(calm, t, identityOf, w0, w, q)
  {
  }

  ghost predicate ReapplyProgress(calm: bool, t: Target, identityOf: Prefix -> RouteId, todo: set<Prefix>,
                                  w0: Stores, w: Stores, q: Prefix) {
    && ParkKeptAt(calm, w0, w, q)
    && (q in todo && q in w0.entries && q in w.entries ==>
          w.entries[q] == w0.entries[q] && (calm ==> w.Rows(q) == w0.Rows(q)))
    && (q !in todo ==> ReappliedAt(calm, t, identityOf, w0, w, q))
  }

  /** A skipped record and its rows are as they were. */
  ghost predicate SkippedAt(calm: bool, t: Target, w0: Stores, w: Stores, q: Prefix) {
    q in w0.entries && Skips(t, w0.entries[q]) ==>
      q in w.entries && w.entries[q] == w0.entries[q] && (calm ==> w.Rows(q) == w0.Rows(q))
  }

  lemma ReapplyAdvances(calm: bool, t: Target, identityOf: Prefix -> RouteId, todo: set<Prefix>, p: Prefix,
                        w0: Stores, w: Stores, w': Stores)
    requires p in todo && OnlyAt(calm, w, w', p) && ParkKeptAt(calm, w, w', p) && SkippedAt(calm, t, w, w', p)
    requires w.entries.Keys == w0.entries.Keys
    requires forall q :: ReapplyProgress(calm, t, identityOf, todo, w0, w, q)
    ensures forall q :: ParkKeptAt(calm, w0, w', q) && SkippedAt(calm, t, w0, w', q)
    ensures ReappliedAt(calm, t, identityOf, w, w', p) ==>
              forall q :: ReapplyProgress(calm, t, identityOf, todo - {p}, w0, w', q)
    ensures w.entries[p] == w0.entries[p]
    ensures calm ==> Reappliable(t, identityOf, w0, p) == Reappliable(t, identityOf, w, p)
  {
    assert ReapplyProgress(calm, t, identityOf, todo, w0, w, p);
    forall q
      ensures ParkKeptAt(calm, w0, w', q) && SkippedAt(calm, t, w0, w', q)
      ensures ReappliedAt(calm, t, identityOf, w, w', p) ==>
                ReapplyProgress(calm, t, identityOf, todo - {p}, w0, w', q)
    {
      assert ReapplyProgress(calm, t, identityOf, todo, w0, w, q);
    }
  }

  // ----- flushing a zone -----

  predicate InZone(w: Stores, zone: string, q: Prefix) {
    q in w.entries && w.entries[q].zone == zone
  }

  /** The intent of q was retired in full: no record, and none of its rows. */
  predicate FlushedAt(calm: bool, w0: Stores, w: Stores, q: Prefix)
    requires q in w0.entries
  {
    q !in w.entries && (calm ==> w.Rows(q) == w0.Rows(q) - Doomed(w0.entries[q]))
  }

  /** A failed retirement keeps the record as durable evidence, and starts no park. */
  predicate RetiringAt(w0: Stores, w: Stores, q: Prefix)
    requires q in w0.entries
  {
    q in w.entries && w.entries[q].state == Retiring && (w0.entries[q].park.None? ==> w.entries[q].park.None?)
  }

  /** Intents of other zones are untouched; those of the zone are gone, or durably on their way out. */
  predicate FlushProgress(calm: bool, zone: string, clean: bool, todo: set<Prefix>, w0: Stores, w: Stores, q: Prefix) {
    if InZone(w0, zone, q) && q !in todo then
      FlushedAt(calm, w0, w, q) || (!clean && RetiringAt(w0, w, q))
    else
      Lookup(w.entries, q) == Lookup(w0.entries, q) && (calm ==> w.Rows(q) == w0.Rows(q))
  }

  lemma FlushAdvances(calm: bool, zone: string, clean: bool, ok: bool, clean': bool, todo: set<Prefix>, p: Prefix,
                      w0: Stores, w: Stores, w': Stores)
    requires p in todo && InZone(w0, zone, p)
    requires forall q :: FlushProgress(calm, zone, clean, todo, w0, w, q)
    requires calm ==> RowsKeptBut(w.kernel, w'.kernel, p)
    requires p in w.entries
    requires if ok then w'.entries == w.entries - {p} && (calm ==> w'.Rows(p) == w.Rows(p) - Doomed(w.entries[p]))
             else RetiringAt(w, w', p) && w'.entries == w.entries[p := w'.entries[p]]
    requires clean' ==> clean && ok
    ensures forall q :: FlushProgress(calm, zone, clean', todo - {p}, w0, w', q)
  {
    assert FlushProgress(calm, zone, clean, todo, w0, w, p);
    forall q
      ensures FlushProgress(calm, zone, clean', todo - {p}, w0, w', q)
    {
      assert FlushProgress(calm, zone, clean, todo, w0, w, q);
    }
  }

  predicate Unparked(w: Stores) {
    forall q <- w.entries :: w.entries[q].park.None?
  }

  lemma UpdateKeepsUnparked(w: Stores, w': Stores, p: Prefix)
    requires p in w.entries && p in w'.entries && w'.entries == w.entries[p := w'.entries[p]]
    requires w'.entries[p].park == w.entries[p].park
    ensures Unparked(w) ==> Unparked(w')
  {
  }

  lemma FlushStartsNoPark(calm: bool, zone: string, clean: bool, w0: Stores, w: Stores)
    requires forall q :: FlushProgress(calm, zone, clean, {}, w0, w, q)
    ensures Unparked(w0) ==> Unparked(w)
  {
    forall q | Unparked(w0) && q in w.entries
      ensures w.entries[q].park.None?
    {
      assert FlushProgress(calm, zone, clean, {}, w0, w, q);
    }
  }
}
