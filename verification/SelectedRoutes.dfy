/**
 The selected-route manager of one role: the registry slice, its checkpoint file and the kernel rows,
 changed step by step by the canonical transactions, by parking and by recovery. Every primitive step is
 appended to a ghost run of one arbitrary prefix, the probe, so that `Valid()` says of every method that
 all its steps, also on the error paths, are steps of the protocol.
 */
module SelectedRoutes {
  import opened Identity
  import opened Records
  import opened Planner
  import opened Protocol
  import opened Stages
  import opened Recovery

  datatype Error =
    | PlatformError | Interrupted | IllegalTransition | UnknownRecord | InvalidIdentity
    | RowConflict | StillParked | NotProven | NotWinning | NotProtected | NotFrozen | NoInterface | Frozen

  datatype Result<+T> = Ok(value: T) | Err(error: Error)

  class SelectedRouteManager {
    /** No platform call, checkpoint write or failpoint ever fails. */
    const reliable: bool
    const role: string
    /** Nobody else edits the kernel rows, ever. */
    const quiet: bool
    /** Nobody else edits the kernel rows while a call of the manager is running. */
    const calm: bool
    /** The prefix whose history is recorded: arbitrary, so what holds of it holds of every prefix. */
    ghost const probe: Prefix

    var entries: map<Prefix, SelectedRoute>
    var disk: map<Prefix, SelectedRoute>
    var diskGeneration: nat
    var kernel: map<Prefix, set<Row>>
    var routeGeneration: nat
    var frozen: bool
    var restorePending: bool
    /** A failed checkpoint write or an interruption ended the process. */
    var halted: bool
    ghost var run: seq<Cell>

    function Rows(p: Prefix): set<Row>
      reads this`kernel
    {
      RowsIn(kernel, p)
    }

    ghost function World(): Stores
      reads this`entries, this`kernel
    {
      Stores(entries, kernel)
    }

    ghost function Now(): Cell
      requires run != []
      reads this`run
    {
      Last(run)
    }

    ghost predicate Valid()
      reads this
    {
      && IsRun(quiet, run) && (quiet ==> calm)
      && Now().mem == Lookup(entries, probe)
      && Now().disk == Lookup(disk, probe)
      && Now().rows == Rows(probe)
      && WellKeyed(entries)
      && WellKeyed(disk)
    }

    /** The process is alive and no transaction is half done. */
    ghost predicate Settled()
      reads this
    {
      Valid() && !halted && Quiescent(Now())
    }

    ghost predicate Sound()
      reads this
    {
      Valid() && (halted || Quiescent(Now()))
    }

    constructor (role: string, reliable: bool, quiet: bool, calm: bool, kernel: map<Prefix, set<Row>>, ghost probe: Prefix)
      requires quiet ==> calm
      ensures Settled() && entries == map[] && disk == map[] && !frozen && this.kernel == kernel
      ensures this.reliable == reliable && this.quiet == quiet && this.calm == calm && this.probe == probe
      ensures this.role == role && !restorePending && routeGeneration == 1
    {
      this.role, this.reliable, this.quiet, this.calm := role, reliable, quiet, calm;
      this.kernel, this.probe := kernel, probe;
      entries, disk, diskGeneration, routeGeneration := map[], map[], 0, 1;
      frozen, restorePending, halted := false, false, false;
      run := [Cell(None, None, if probe in kernel then kernel[probe] else {}, {}, {}, CLEAN)];
    }

    /**
     Never bare, in terms of the kernel: a prefix that was covered by a row of the controller still has a
     selected or park row, unless its retirement became durable.
     */
    lemma StillCovered(i: nat)
      requires Valid() && quiet && i < |run| && Covered(run[i])
      requires forall k :: i <= k < |run| ==> Registered(run[k])
      ensures exists row :: row in Rows(probe) && !row.Foreign?
    {
      NeverBare(run, i, |run| - 1);
      LiveRows();
      if id :| id in Now().ours {
        assert Route(id) in Rows(probe);
      } else {
        var id :| id in Now().parks;
        assert Park(id) in Rows(probe);
      }
    }

    /** The protocol invariant holds of the probe in every valid state. */
    lemma NowInv()
      requires Valid()
      ensures Inv(quiet, Now())
    {
      RunInv(quiet, run, |run| - 1);
    }

    lemma LiveRows()
      requires Valid()
      ensures forall id <- Now().ours :: Route(id) in Rows(probe)
      ensures forall id <- Now().parks :: Park(id) in Rows(probe)
    {
      NowInv();
    }

    /** An unfrozen role holds no park transaction. */
    ghost predicate ParksFrozen()
      reads this`entries, this`kernel, this`frozen
    {
      frozen || Unparked(World())
    }

    // ----- storage, interruption, environment -----

    ghost method Record(c: Cell)
      requires IsRun(quiet, run) && Next(quiet, Now(), c)
      modifies `run
      ensures run == old(run) + [c] && IsRun(quiet, run) && Now() == c
    {
      ExtendRun(quiet, run, c);
      run := run + [c];
    }

    /** Writes the whole role. A failed write may or may not have landed; either way the process ends. */
    method WriteCheckpoint(generation: nat) returns (ok: bool)
      requires Valid() && !halted
      modifies `disk, `diskGeneration, `halted, `run
      ensures Valid() && old(run) <= run
      ensures ok == !halted && (reliable ==> ok)
      ensures ok ==> disk == entries && diskGeneration == generation
      ensures ok ==> Now() == Stored(old(Now()))
      ensures ok || (disk == entries && Now() == Stored(old(Now()))) ||
              (disk == old(disk) && Now() == old(Now()))
    {
      var stored := Fallible();
      if !stored {
        halted := true;
        if * {
          return false;
        }
      }
      Record(Stored(Now()));
      disk, diskGeneration := entries, generation;
      return !halted;
    }

    /** A named durable boundary: the process may be interrupted here. */
    method Failpoint() returns (ok: bool)
      requires !halted
      modifies `halted
      ensures ok == !halted && (reliable ==> ok)
    {
      ok := Fallible();
      halted := !ok;
    }

    method Fallible() returns (ok: bool)
      ensures reliable ==> ok
    {
      if reliable {
        return true;
      }
      ok := *;
    }

    method OutsideEdits()
      requires Valid()
      modifies `kernel, `run
      ensures Valid() && old(run) <= run
      ensures calm ==> kernel == old(kernel) && run == old(run)
      ensures Now() == old(Now()).(rows := Now().rows, ours := Now().ours, parks := Now().parks)
      ensures Now().ours <= old(Now()).ours && Now().parks <= old(Now()).parks
    {
      if !calm {
        var table: map<Prefix, set<Row>> := *;
        Edit(table);
      }
    }

    /** Somebody else replaces the route table. */
    method Edit(table: map<Prefix, set<Row>>)
      requires Valid() && !quiet
      modifies `kernel, `run
      ensures Valid() && old(run) <= run && kernel == table
      ensures Now() == old(Now()).(rows := Now().rows, ours := Now().ours, parks := Now().parks)
      ensures Now().ours <= old(Now()).ours && Now().parks <= old(Now()).parks
    {
      kernel := table;
      Record(Now().(rows := Rows(probe), ours := Now().ours * RouteIds(Rows(probe)),
                    parks := Now().parks * ParkIds(Rows(probe))));
    }

    /** One live read of the same-prefix rows. */
    method ReadRows(p: Prefix) returns (ok: bool, rows: set<Row>)
      requires Valid()
      modifies `kernel, `run
      ensures Valid() && old(run) <= run && (ok ==> rows == Rows(p)) && (reliable ==> ok)
      ensures calm ==> kernel == old(kernel) && run == old(run)
      ensures Now() == old(Now()).(rows := Now().rows, ours := Now().ours, parks := Now().parks)
      ensures Now().ours <= old(Now()).ours && Now().parks <= old(Now()).parks
    {
      OutsideEdits();
      rows := Rows(p);
      ok := Fallible();
      if !ok {
        rows := *;
      }
    }

    /** The process dies and starts again from the checkpoint; a non-empty role comes back frozen. */
    method Restart()
      requires Valid()
      modifies `entries, `halted, `frozen, `restorePending, `routeGeneration, `run
      ensures Settled() && old(run) <= run
      ensures entries == disk && ParksFrozen()
      ensures frozen == restorePending == (disk != map[])
      ensures routeGeneration > diskGeneration
    {
      Record(Crashed(Now()));
      entries, halted := disk, false;
      frozen, restorePending := disk != map[], disk != map[];
      routeGeneration := diskGeneration + 1;
    }

    // ----- registry transitions -----

    method SetEntry(p: Prefix, r: SelectedRoute, ghost c: Cell)
      requires Valid() && r.prefix == p && r.WellFormed()
      requires p == probe ==> MemStep(quiet, Now(), c) && c.mem == Some(r)
                              && c == Now().(mem := c.mem, ours := c.ours, parks := c.parks, marks := c.marks)
      modifies `entries, `run
      ensures Valid() && old(run) <= run
      ensures entries == old(entries)[p := r]
      ensures Now() == if p == probe then c else old(Now())
    {
      if p == probe {
        Record(c);
      }
      entries := entries[p := r];
      forall q ensures KeyOk(entries, q) { assert KeyOk(old(entries), q); }
    }

    /** The record after reserving `desired` for p. */
    function Reservation(p: Prefix, zone: string, source: Source, tg: nat, rg: nat, iface: string, desired: RouteId)
      : SelectedRoute
      reads this`entries
    {
      if p in entries then entries[p].Reserved(zone, source, tg, rg, iface, desired)
      else FreshRecord(role, zone, p, source, tg, rg, iface, desired)
    }

    method Reserve(p: Prefix, zone: string, source: Source, tg: nat, rg: nat, iface: string, desired: RouteId)
      returns (ok: bool)
      requires Settled()
      modifies `entries, `run
      ensures Valid() && old(run) <= run
      ensures ok == desired.Valid(p)
      ensures !ok ==> entries == old(entries) && Now() == old(Now())
      ensures ok ==> entries == old(entries)[p := old(Reservation(p, zone, source, tg, rg, iface, desired))]
      ensures ok ==> var r := entries[p];
                     && r.zone == zone && r.source == source && r.toadGeneration == tg && r.routeGeneration == rg
                     && r.iface == iface && r.desired == desired && r.prefix == p
      ensures ok && p != probe ==> Now() == old(Now())
      ensures ok && p == probe ==>
                Now() == old(Now()).(mem := Some(entries[p]), marks := ReserveMarks(old(Now()), desired))
    {
      if !desired.Valid(p) {
        return false;
      }
      assert KeyOk(entries, p);
      var r := Reservation(p, zone, source, tg, rg, iface, desired);
      ghost var c := Now().(mem := Some(r), marks := ReserveMarks(Now(), desired));
      assert p == probe ==> ReserveStep(Now(), c);
      SetEntry(p, r, c);
      return true;
    }

    /** One registry transition that keeps all evidence; an illegal one changes nothing. */
    method Transition(p: Prefix, next: Option<SelectedRoute>) returns (ok: bool)
      requires Valid() && p in entries
      requires next.Some? ==> PlainMove(entries[p], next.value) && DroppedPark(entries[p], next.value) == {}
      modifies `entries, `run
      ensures Valid() && old(run) <= run
      ensures ok == next.Some?
      ensures entries == if ok then old(entries)[p := next.value] else old(entries)
      ensures Now() == if ok && p == probe then old(Now()).(mem := next) else old(Now())
    {
      ok := next.Some?;
      if ok {
        assert KeyOk(entries, p);
        MoveKeepsForm(entries[p], next.value);
        ghost var c := Now().(mem := next);
        assert p == probe ==> PlainStep(Now(), c);
        SetEntry(p, next.value, c);
      }
    }

    method MarkActive(p: Prefix)
      requires Valid() && p in entries && entries[p].MarkActive(entries[p].desired).Some?
      requires p == probe ==> ActivateOk(Now())
      modifies `entries, `run
      ensures Valid() && old(run) <= run
      ensures entries == old(entries)[p := old(entries)[p].MarkActive(old(entries)[p].desired).value]
      ensures p != probe ==> Now() == old(Now())
      ensures p == probe ==>
                && Now() == old(Now()).(mem := Some(entries[p]), ours := Now().ours, marks := Now().marks)
                && Now().marks == ProofMarks(old(Now()), entries[p].desired) && old(Now()).ours <= Now().ours
                && Now().ours <= {entries[p].desired}
    {
      assert KeyOk(entries, p);
      var r := entries[p].MarkActive(entries[p].desired).value;
      ghost var c := Now().(mem := Some(r), ours := Now().ours + ({r.desired} * RouteIds(Rows(p))),
                            marks := ProofMarks(Now(), r.desired));
      assert p == probe ==> ActivateStep(Now(), c);
      SetEntry(p, r, c);
    }

    method MarkParkActive(p: Prefix)
      requires Valid() && p in entries && entries[p].park.Some?
      requires entries[p].MarkParkActive(entries[p].park.value.desired).Some?
      requires p == probe ==> ActivateParkOk(Now())
      modifies `entries, `run
      ensures Valid() && old(run) <= run
      ensures entries ==
              old(entries)[p := old(entries)[p].MarkParkActive(old(entries)[p].park.value.desired).value]
      ensures p != probe ==> Now() == old(Now())
      ensures p == probe ==>
                && Now() == old(Now()).(mem := Some(entries[p]), parks := Now().parks, marks := Now().marks)
                && Now().marks == ParkProofMarks(old(Now()), entries[p].park.value.desired)
                && old(Now()).parks <= Now().parks
    {
      assert KeyOk(entries, p);
      var r := entries[p].MarkParkActive(entries[p].park.value.desired).value;
      ghost var c := Now().(mem := Some(r), parks := Now().parks + ({r.park.value.desired} * ParkIds(Rows(p))),
                            marks := ParkProofMarks(Now(), r.park.value.desired));
      assert p == probe ==> ActivateParkStep(Now(), c);
      SetEntry(p, r, c);
    }

    method MarkParkRetiring(p: Prefix) returns (ok: bool)
      requires Valid() && p in entries
      requires p == probe && quiet ==> GiveUpParkOk(Now())
      modifies `entries, `run
      ensures Valid() && old(run) <= run
      ensures ok == old(entries)[p].MarkParkRetiring().Some?
      ensures ok ==> entries == old(entries)[p := old(entries)[p].MarkParkRetiring().value]
      ensures !ok ==> entries == old(entries)
      ensures Now() == if p == probe then old(Now()).(mem := Some(entries[p])) else old(Now())
    {
      var next := entries[p].MarkParkRetiring();
      ok := next.Some?;
      if ok {
        assert KeyOk(entries, p);
        ghost var c := Now().(mem := next);
        assert p == probe ==> RetireParkStep(quiet, Now(), c);
        SetEntry(p, next.value, c);
      }
    }

    method ClearPark(p: Prefix) returns (ok: bool)
      requires Valid() && p in entries && (p == probe ==> ClearParkOk(quiet, Now()))
      modifies `entries, `run
      ensures Valid() && old(run) <= run
      ensures ok == old(entries)[p].ClearPark().Some?
      ensures ok ==> entries == old(entries)[p := old(entries)[p].ClearPark().value]
      ensures !ok ==> entries == old(entries)
      ensures Now() == if p == probe then old(Now()).(mem := Some(entries[p]), marks := ClearMarks(old(Now())))
                       else old(Now())
    {
      var next := entries[p].ClearPark();
      ok := next.Some?;
      if ok {
        assert KeyOk(entries, p);
        ghost var c := Now().(mem := next, marks := ClearMarks(Now()));
        assert p == probe ==> ClearParkStep(quiet, Now(), c);
        SetEntry(p, next.value, c);
      }
    }

    method Remove(p: Prefix)
      requires Valid()
      requires p == probe && p in entries ==> ForgetOk(quiet, Now())
      modifies `entries, `run
      ensures Valid() && old(run) <= run
      ensures entries == old(entries) - {p}
      ensures Now() == if p == probe then old(Now()).(mem := None) else old(Now())
    {
      if p in entries && p == probe {
        Record(Now().(mem := None));
      }
      entries := entries - {p};
      forall q ensures KeyOk(entries, q) { assert KeyOk(old(entries), q); }
    }

    // ----- system calls -----

    /** No evidence was dropped or regained. */
    twostate predicate Kept()
      requires old(run) != [] && run != []
      reads this`run
    {
      Now().marks == old(Now()).marks.(ahead := Now().marks.ahead)
    }

    /** No evidence was dropped, and some may have been regained. */
    twostate predicate NothingLost()
      requires old(run) != [] && run != []
      reads this`run
    {
      && Now().marks.moved == old(Now()).marks.moved
      && Now().marks.lost <= old(Now()).marks.lost && Now().marks.parkLost <= old(Now()).marks.parkLost
    }

    /** No write runs ahead of the checkpoint, unless memory had diverged from it before. */
    twostate predicate StaysNamed()
      requires old(run) != [] && run != []
      reads this`run
    {
      Now().marks.ahead ==> old(Now()).marks.ahead || Diverged(old(Now()))
    }

    /** What a call on prefix p leaves alone: both records, and without outside edits all other rows. */
    twostate predicate OnlyRows(p: Prefix)
      requires old(run) != [] && run != []
      reads this`kernel, this`run
    {
      && old(run) <= run
      && Now() == old(Now()).(rows := Now().rows, ours := Now().ours, parks := Now().parks, marks := Now().marks)
      && Kept() && StaysNamed()
      && (p != probe && calm ==> Now() == old(Now()))
      && (calm ==> RowsKeptBut(old(kernel), kernel, p))
    }

    method Mutate(p: Prefix, rows: set<Row>, ghost c: Cell)
      requires Valid()
      requires p == probe ==> KernelStep(quiet, Now(), c) && c.rows == rows
                              && c == Now().(rows := c.rows, ours := c.ours, parks := c.parks, marks := c.marks)
                              && c.marks == Now().marks.(ahead := c.marks.ahead)
                              && (c.marks.ahead ==> Now().marks.ahead || Diverged(Now()))
      modifies `kernel, `run
      ensures Valid() && OnlyRows(p)
      ensures kernel == old(kernel)[p := rows]
      ensures Now() == if p == probe then c else old(Now())
    {
      if p == probe {
        Record(c);
      }
      kernel := kernel[p := rows];
    }

    /** Adds one route row; an existing row is not an error. */
    method RouteAdd(p: Prefix, id: RouteId) returns (ok: bool)
      requires Valid() && (p == probe ==> RouteWriteOk(Now(), id))
      modifies `kernel, `run
      ensures Valid() && OnlyRows(p)
      ensures calm ==> Rows(p) == old(Rows(p)) || Rows(p) == old(Rows(p)) + {Route(id)}
      ensures calm && reliable ==> ok && Rows(p) == old(Rows(p)) + {Route(id)}
    {
      OutsideEdits();
      ok := Fallible();
      if ok {
        assert p == probe ==> WriteStep(Now(), WithRoute(Now(), id));
        Mutate(p, Rows(p) + {Route(id)}, WithRoute(Now(), id));
      } else if * {
        // The kernel answered "busy": reported as success and left to the read-back.
        ok := true;
      }
    }

    /** Writes the Desired row over the stale Owned row, or beside it. */
    method RouteReplace(p: Prefix, id: RouteId, stale: RouteId) returns (ok: bool)
      requires Valid() && stale != id
      requires p == probe ==> RouteWriteOk(Now(), id) && Now().mem.value.owned == Some(stale)
      modifies `kernel, `run
      ensures Valid() && OnlyRows(p)
      ensures calm ==> || Rows(p) == old(Rows(p))
                        || Rows(p) == old(Rows(p)) + {Route(id)}
                        || Rows(p) == old(Rows(p)) - {Route(stale)} + {Route(id)}
      ensures calm && reliable ==> ok && Rows(p) == old(Rows(p)) - {Route(stale)} + {Route(id)}
    {
      var inPlace := Fallible();
      if !inPlace {
        ok := RouteAdd(p, id);
        return;
      }
      OutsideEdits();
      ghost var c := WithRoute(WithoutRoute(Now(), stale), id);
      if p == probe {
        ReplaceIsStep(quiet, Now(), id, stale);
      }
      Mutate(p, Rows(p) - {Route(stale)} + {Route(id)}, c);
      ok := true;
    }

    /** Deletes one exact route row; an absent row is success. */
    method RouteDel(p: Prefix, id: RouteId) returns (ok: bool)
      requires Valid() && (p == probe ==> RouteDeleteOk(quiet, Now(), id))
      modifies `kernel, `run
      ensures Valid() && OnlyRows(p)
      ensures calm ==> Rows(p) == if ok then old(Rows(p)) - {Route(id)} else old(Rows(p))
      ensures p == probe ==> Now().ours <= if ok then old(Now()).ours - {id} else old(Now()).ours
      ensures reliable ==> ok
    {
      OutsideEdits();
      ok := Fallible();
      if ok {
        assert p == probe ==> DeleteStep(quiet, Now(), WithoutRoute(Now(), id));
        Mutate(p, Rows(p) - {Route(id)}, WithoutRoute(Now(), id));
      }
    }

    /** Adds or recognises one park row. */
    method ParkAdd(p: Prefix, id: ParkId) returns (ok: bool)
      requires Valid() && (p == probe ==> ParkWriteOk(Now(), id))
      modifies `kernel, `run
      ensures Valid() && OnlyRows(p)
      ensures calm ==> Rows(p) == if ok then old(Rows(p)) + {Park(id)} else old(Rows(p))
      ensures p == probe ==> Now().parks <= old(Now()).parks + {id}
      ensures p == probe && ok ==> id in Now().parks
      ensures reliable ==> ok
    {
      OutsideEdits();
      ok := Fallible();
      if ok {
        assert p == probe ==> WriteParkStep(Now(), WithPark(Now(), id));
        Mutate(p, Rows(p) + {Park(id)}, WithPark(Now(), id));
      }
    }

    method ParkDel(p: Prefix, id: ParkId) returns (ok: bool)
      requires Valid()
      requires p == probe ==> StaleParkDeleteOk(quiet, Now(), id) || ParkDeleteOk(quiet, Now(), id)
      modifies `kernel, `run
      ensures Valid() && OnlyRows(p)
      ensures calm ==> Rows(p) == if ok then old(Rows(p)) - {Park(id)} else old(Rows(p))
      ensures p == probe ==> Now().parks <= if ok then old(Now()).parks - {id} else old(Now()).parks
      ensures Now().ours <= old(Now()).ours && (calm ==> Now().ours == old(Now()).ours)
      ensures reliable ==> ok
    {
      OutsideEdits();
      ok := Fallible();
      if ok {
        assert p == probe ==> DeleteParkStep(quiet, Now(), WithoutPark(Now(), id));
        Mutate(p, Rows(p) - {Park(id)}, WithoutPark(Now(), id));
      }
    }

    // ----- the platform writer -----

    method Execute(p: Prefix, action: Action) returns (ok: bool)
      requires Valid() && p in entries && entries[p].state == Applying
      requires p == probe ==> RouteWriteOk(Now(), entries[p].desired)
      requires action == Replace ==> StaleOwned(entries[p]).Some?
      modifies `kernel, `run
      ensures Valid() && OnlyRows(p)
      ensures calm ==> SameButRoutes(old(Rows(p)), Rows(p))
      ensures calm && reliable ==> ok
      ensures calm && reliable && Plan(old(Rows(p)), entries[p]) == Some(action) ==>
                Rows(p) == Reconciled(old(Rows(p)), entries[p])
    {
      ok := true;
      match action
      case NoAction =>
      case Add => ok := RouteAdd(p, entries[p].desired);
      case Replace => ok := RouteReplace(p, entries[p].desired, entries[p].owned.value);
    }

    /** Plans, writes, and proves by reading back that exactly the Desired row is there. */
    method ReconcileSelectedRoute(p: Prefix) returns (res: Result<bool>)
      requires Valid() && p in entries && entries[p].state == Applying
      requires p == probe ==> RouteWriteOk(Now(), entries[p].desired)
      modifies `kernel, `run
      ensures Valid() && OnlyRows(p)
      ensures res.Ok? ==> RouteIds(Rows(p)) == {entries[p].desired} && Exact(Rows(p), entries[p])
      ensures calm ==> SameButRoutes(old(Rows(p)), Rows(p))
      ensures calm && !Accepts(old(Rows(p)), entries[p]) ==> res.Err? && Rows(p) == old(Rows(p))
      ensures calm && reliable ==> (res.Ok? <==> Accepts(old(Rows(p)), entries[p]))
    {
      var r := entries[p];
      var ok, rows := ReadRows(p);
      if !ok {
        return Err(PlatformError);
      }
      var plan := Plan(rows, r);
      if plan == None {
        return Err(Error.RowConflict);
      }
      ok := Execute(p, plan.value);
      if !ok {
        return Err(PlatformError);
      }
      ReconciledIsPlanned(rows, r);
      ok, rows := ReadRows(p);
      if !ok || Plan(rows, r) != Some(NoAction) {
        return Err(PlatformError);
      }
      return Ok(plan.value != NoAction);
    }

    /** Deletes the authorized selected identities of the record, and nothing else. */
    method RemoveSelectedRoute(p: Prefix) returns (ok: bool)
      requires Valid() && p in entries
      requires p == probe ==> forall id :: entries[p].Authorizes(id) ==> RouteDeleteOk(quiet, Now(), id)
      modifies `kernel, `run
      ensures Valid() && OnlyRows(p)
      ensures calm && ok ==> Rows(p) == old(Rows(p)) - RouteRows(entries[p])
      ensures calm ==> old(Rows(p)) - RouteRows(entries[p]) <= Rows(p) <= old(Rows(p))
      ensures p == probe && ok ==> forall id <- Now().ours :: !entries[p].Authorizes(id)
      ensures reliable ==> ok
    {
      var r := entries[p];
      ok := true;
      if r.owned.Some? {
        ok := RouteDel(p, r.owned.value);
      }
      if ok && r.Authorizes(r.desired) && r.owned != Some(r.desired) {
        ok := RouteDel(p, r.desired);
      }
    }

    /** Deletes the previous park, if it was seen, after its replacement is live. */
    method DeleteStalePark(p: Prefix, seen: set<Row>) returns (ok: bool)
      requires Valid() && p in entries && entries[p].park.Some?
      requires p == probe ==>
                 && ParkWriteOk(Now(), entries[p].park.value.desired)
                 && entries[p].park.value.desired in Now().parks
                 && forall id <- Now().parks :: id == entries[p].park.value.desired ||
                                                (entries[p].park.value.owned == Some(id) && Park(id) in seen)
      modifies `kernel, `run
      ensures Valid() && OnlyRows(p)
      ensures ok && p == probe ==> Now().parks <= {entries[p].park.value.desired}
      ensures calm ==> SameButParks(old(Rows(p)), Rows(p))
      ensures calm && ok ==>
                Rows(p) == old(Rows(p)) - (var t := entries[p].park.value;
                                           if t.owned.Some? && t.owned.value != t.desired && Park(t.owned.value) in seen
                                           then {Park(t.owned.value)} else {})
      ensures reliable ==> ok
    {
      var park := entries[p].park.value;
      ok := true;
      if park.owned.Some? && park.owned.value != park.desired && Park(park.owned.value) in seen {
        ok := ParkDel(p, park.owned.value);
      }
    }

    /** Writes the Desired park beside everything that was seen, then deletes the stale one. */
    method WritePark(p: Prefix, seen: set<Row>) returns (ok: bool)
      requires Valid() && p in entries && entries[p].park.Some?
      requires p == probe ==>
                 && ParkWriteOk(Now(), entries[p].park.value.desired)
                 && forall id <- Now().parks :: id == entries[p].park.value.desired ||
                                                (entries[p].park.value.owned == Some(id) && Park(id) in seen)
      modifies `kernel, `run
      ensures Valid() && OnlyRows(p)
      ensures ok && p == probe ==> Now().parks <= {entries[p].park.value.desired}
      ensures calm ==> SameButParks(old(Rows(p)), Rows(p))
      ensures calm && ok && Recognizes(entries[p], seen) && seen == old(Rows(p)) && entries[p].park.value.state == ParkApplying
              ==> ParkIds(Rows(p)) == {entries[p].park.value.desired}
      ensures reliable ==> ok
    {
      ok := ParkAdd(p, entries[p].park.value.desired);
      if ok {
        ok := DeleteStalePark(p, seen);
      }
      if calm && ok && Recognizes(entries[p], seen) && seen == old(Rows(p)) && entries[p].park.value.state == ParkApplying {
        assert Park(entries[p].park.value.desired) in Rows(p);
        forall id | id in ParkIds(Rows(p))
          ensures id == entries[p].park.value.desired
        {
          assert Park(id) in seen ==> RowRecognized(Park(id), entries[p]);
        }
      }
    }

    lemma KnownParks(p: Prefix)
      requires Valid() && p == probe && p in entries && entries[p].park.Some?
      requires entries[p].park.value.state == ParkApplying && Recognizes(entries[p], Rows(p))
      ensures forall id <- Now().parks ::
                Park(id) in Rows(p) &&
                (id == entries[p].park.value.desired || entries[p].park.value.owned == Some(id))
    {
      LiveRows();
      forall id | id in Now().parks
        ensures RowRecognized(Park(id), entries[p])
      {
      }
    }

    /** Writes the Desired park, then deletes the stale one. Called only with a ParkApplying record. */
    method ReconcileManagedPark(p: Prefix) returns (res: Result<()>)
      requires Valid() && p in entries && entries[p].park.Some? && entries[p].park.value.state == ParkApplying
      requires p == probe ==> ParkWriteOk(Now(), entries[p].park.value.desired)
      modifies `kernel, `run
      ensures Valid() && OnlyRows(p)
      ensures res.Ok? ==> Park(entries[p].park.value.desired) in Rows(p)
      ensures res.Ok? && p == probe ==> Now().parks <= {entries[p].park.value.desired}
      ensures calm ==> SameButParks(old(Rows(p)), Rows(p))
      ensures calm && res.Ok? ==> ParkIds(Rows(p)) == {entries[p].park.value.desired}
      ensures calm && !Recognizes(entries[p], old(Rows(p))) ==> res.Err? && Rows(p) == old(Rows(p))
      ensures calm && reliable ==> (res.Ok? <==> Recognizes(entries[p], old(Rows(p))))
    {
      var ok, rows := ReadRows(p);
      if !ok {
        return Err(PlatformError);
      }
      if !Recognizes(entries[p], rows) {
        return Err(Error.RowConflict);
      }
      if p == probe {
        KnownParks(p);
      }
      ok := WritePark(p, rows);
      if !ok {
        return Err(PlatformError);
      }
      var after;
      ok, after := ReadRows(p);
      if !ok || Park(entries[p].park.value.desired) !in after {
        return Err(PlatformError);
      }
      return Ok(());
    }

    method DeleteParkCandidates(p: Prefix) returns (ok: bool)
      requires Valid() && p in entries && entries[p].park.Some?
      requires p == probe ==> ParkRetirable(quiet, Now())
      modifies `kernel, `run
      ensures Valid() && OnlyRows(p)
      ensures calm ==> old(Rows(p)) - ParkRows(entries[p].park.value) <= Rows(p) <= old(Rows(p))
      ensures calm && ok ==> Rows(p) == old(Rows(p)) - ParkRows(entries[p].park.value)
      ensures p == probe && ok ==> forall id <- Now().parks :: !entries[p].park.value.Authorizes(id)
      ensures Now().ours <= old(Now()).ours && (calm ==> Now().ours == old(Now()).ours)
      ensures reliable ==> ok
    {
      var park := entries[p].park.value;
      ok := true;
      if park.owned.Some? {
        ok := ParkDel(p, park.owned.value);
      }
      if ok && park.Authorizes(park.desired) && park.owned != Some(park.desired) {
        ok := ParkDel(p, park.desired);
      }
    }

    /** Deletes the park identities that the durable ParkRetiring transaction names, and verifies their absence. */
    method RemoveManagedPark(p: Prefix) returns (ok: bool)
      requires Valid() && p in entries && entries[p].park.Some? && entries[p].park.value.state == ParkRetiring
      requires p == probe ==> ParkRetirable(quiet, Now())
      modifies `kernel, `run
      ensures Valid() && OnlyRows(p)
      ensures calm && ok ==> Rows(p) == old(Rows(p)) - ParkRows(entries[p].park.value)
      ensures calm ==> old(Rows(p)) - ParkRows(entries[p].park.value) <= Rows(p) <= old(Rows(p))
      ensures ok ==> ParkRows(entries[p].park.value) !! Rows(p)
      ensures p == probe && ok ==> forall id <- Now().parks :: !entries[p].park.value.Authorizes(id)
      ensures Now().ours <= old(Now()).ours && (calm ==> Now().ours == old(Now()).ours)
      ensures p == probe && ok ==> Now().parks <= Now().marks.parkLost
      ensures reliable && calm ==> ok
    {
      ok := DeleteParkCandidates(p);
      if ok {
        var rows;
        ok, rows := ReadRows(p);
        ok := ok && ParkRows(entries[p].park.value) !! rows;
        if p == probe {
          NowInv();
        }
      }
    }

    // ----- the canonical selected-route transaction -----

    /** What a transaction on the selected route of p may change. */
    twostate predicate RouteTransaction(p: Prefix)
      requires old(run) != [] && run != []
      reads this
    {
      && old(run) <= run && NothingLost() && StaysNamed()
      && p in old(entries) && p in entries && entries == old(entries)[p := entries[p]]
      && entries[p] == old(entries)[p].(state := entries[p].state, owned := entries[p].owned)
      && (calm ==> RowsKeptBut(old(kernel), kernel, p))
      && (calm ==> SameButRoutes(old(Rows(p)), Rows(p)))
      && (reliable && !old(halted) ==> !halted)
    }

    /** Publishes a transition: the checkpoint, and the named boundary after it. */
    method Commit() returns (ok: bool)
      requires Valid() && !halted
      modifies `disk, `diskGeneration, `halted, `run
      ensures Sound() && old(run) <= run
      ensures ok == !halted && (reliable ==> ok)
      ensures ok ==> disk == entries && Now() == Stored(old(Now()))
      ensures Now() == old(Now()).(disk := Now().disk, marks := Now().marks) && Kept()
      ensures Now().marks.ahead ==> old(Now()).marks.ahead
    {
      ok := WriteCheckpoint(routeGeneration);
      if ok {
        ok := Failpoint();
      }
    }

    lemma OnlyDesiredIsOurs(p: Prefix)
      requires Valid() && p == probe && p in entries && RouteIds(Rows(p)) == {entries[p].desired}
      ensures Now().ours <= {entries[p].desired}
    {
      LiveRows();
      forall id | id in Now().ours
        ensures id == entries[p].desired
      {
        assert Route(id) in Rows(p) && id in RouteIds(Rows(p));
      }
    }

    /** Marks the row that was just read back Active, and commits the proof. */
    method Prove(p: Prefix) returns (ok: bool)
      requires Settled() && p in entries && entries[p].state == Applying
      requires RouteIds(Rows(p)) == {entries[p].desired}
      modifies `entries, `disk, `diskGeneration, `halted, `run
      ensures Sound() && old(run) <= run && NothingLost() && StaysNamed()
      ensures ok == !halted && (reliable ==> ok)
      ensures entries == old(entries)[p := Proven(old(entries)[p])] || (halted && entries == old(entries))
      ensures ok ==> entries == old(entries)[p := Proven(old(entries)[p])] && disk == entries
    {
      ok := Failpoint();
      if !ok {
        return;
      }
      if p == probe {
        OnlyDesiredIsOurs(p);
      }
      MarkActive(p);
      ok := Failpoint();
      if ok {
        ok := Commit();
      }
    }

    /** The authorized tail: reconcile, mark Active with the exact proof, checkpoint. */
    method Drive(p: Prefix) returns (res: Result<bool>)
      requires Settled() && p in entries && entries[p].state == Applying
      modifies `entries, `disk, `diskGeneration, `kernel, `halted, `run
      ensures Sound() && RouteTransaction(p)
      ensures res.Ok? ==> !halted && entries[p] == Proven(old(entries)[p]) && disk == entries
      ensures res.Ok? ==> RouteIds(Rows(p)) == {entries[p].desired} && Exact(Rows(p), entries[p])
      ensures res.Err? && !halted ==> entries == old(entries) && disk == old(disk)
      ensures calm && !Accepts(old(Rows(p)), old(entries)[p]) ==> res.Err? && Rows(p) == old(Rows(p))
      ensures calm && reliable ==> (res.Ok? <==> Accepts(old(Rows(p)), old(entries)[p]))
    {
      res := ReconcileSelectedRoute(p);
      if res.Ok? {
        var alive := Prove(p);
        if !alive {
          return Err(Interrupted);
        }
      }
    }

    method Preflight(p: Prefix) returns (res: Result<()>)
      requires Settled() && p in entries
      modifies `kernel, `halted, `run
      ensures Sound() && RouteTransaction(p) && entries == old(entries)
      ensures calm ==> Rows(p) == old(Rows(p))
      ensures (res.Ok? ==> !halted && Accepts(Rows(p), entries[p])) && (reliable ==> !halted)
      ensures calm && reliable ==> (res.Ok? <==> Accepts(Rows(p), entries[p]))
    {
      var ok, rows := ReadRows(p);
      if !ok {
        return Err(PlatformError);
      }
      if !Accepts(rows, entries[p]) {
        return Err(Error.RowConflict);
      }
      ok := Failpoint();
      return if ok then Ok(()) else Err(Interrupted);
    }

    /** Makes the Applying state durable before any kernel mutation. */
    method Authorize(p: Prefix) returns (ok: bool)
      requires Settled() && p in entries && entries[p].state == Pending
      modifies `entries, `disk, `diskGeneration, `halted, `run
      ensures Sound() && RouteTransaction(p)
      ensures ok == !halted && (reliable ==> ok)
      ensures entries[p] == old(entries)[p].(state := Applying)
      ensures ok ==> disk == entries && !Now().marks.ahead && !Diverged(Now())
    {
      ok := Transition(p, entries[p].MarkApplying());
      ok := Commit();
    }

    /** The Pending path: preflight, durable Applying, then the authorized tail. */
    method ApplyPending(p: Prefix) returns (res: Result<bool>)
      requires Settled() && p in entries && entries[p].state == Pending
      modifies `entries, `disk, `diskGeneration, `kernel, `halted, `run
      ensures Sound() && RouteTransaction(p)
      ensures res.Ok? ==> !halted && entries[p] == Proven(old(entries)[p]) && disk == entries
      ensures res.Ok? ==> RouteIds(Rows(p)) == {entries[p].desired} && Exact(Rows(p), entries[p])
      ensures res.Err? && !halted ==> entries[p].state != Active
      ensures calm && !Accepts(old(Rows(p)), old(entries)[p]) ==> res.Err? && Rows(p) == old(Rows(p))
      ensures calm && reliable ==> (res.Ok? <==> Accepts(old(Rows(p)), old(entries)[p]))
    {
      var preflight := Preflight(p);
      if preflight.Err? {
        return Err(preflight.error);
      }
      var ok := Authorize(p);
      if !ok {
        return Err(Interrupted);
      }
      res := Drive(p);
    }

    /** Demotes a drifted Active record to a durable Pending. */
    method Demote(p: Prefix) returns (ok: bool)
      requires Settled() && p in entries && entries[p].state == Active
      modifies `entries, `disk, `diskGeneration, `halted, `run
      ensures Sound() && RouteTransaction(p)
      ensures ok == !halted && (reliable ==> ok)
      ensures entries[p] == old(entries)[p].(state := Pending)
      ensures ok ==> disk == entries && !Now().marks.ahead && !Diverged(Now())
    {
      assert KeyOk(entries, p);
      ok := Transition(p, entries[p].BeginRepair());
      ok := Commit();
    }

    /** Drives one record through the state-aware transaction. */
    method ReconcileRecord(p: Prefix) returns (res: Result<bool>)
      requires Settled() && p in entries
      modifies `entries, `disk, `diskGeneration, `kernel, `halted, `run
      ensures Sound() && RouteTransaction(p)
      ensures res.Ok? ==> !halted && entries[p] == Proven(old(entries)[p]) && disk == entries
      ensures res.Ok? ==> RouteIds(Rows(p)) == {entries[p].desired} && Exact(Rows(p), entries[p])
      ensures res.Err? && !halted ==> entries[p].state != Active
      ensures old(ParksFrozen()) ==> ParksFrozen()
      ensures calm && !Accepts(old(Rows(p)), old(entries)[p]) ==> res.Err? && Rows(p) == old(Rows(p))
      ensures calm && reliable ==> (res.Ok? <==> Accepts(old(Rows(p)), old(entries)[p]))
    {
      if entries[p].state == Retiring {
        return Err(IllegalTransition);
      }
      if entries[p].state == Applying {
        res := Drive(p);
        UpdateKeepsUnparked(old(World()), World(), p);
        return;
      }
      if entries[p].state == Active {
        var ok := Demote(p);
        if !ok {
          UpdateKeepsUnparked(old(World()), World(), p);
          return Err(Interrupted);
        }
      }
      res := ApplyPending(p);
      UpdateKeepsUnparked(old(World()), World(), p);
    }

    // ----- retirement -----

    /** A park is taken off the record undeleted at most by clearing a Pending park of p that still owns one. */
    twostate predicate ParkLostOnlyAt(p: Prefix)
      requires old(run) != [] && run != []
      reads this`run
    {
      && Now().marks.moved == old(Now()).marks.moved && Now().marks.lost == old(Now()).marks.lost
      && Now().marks.parkLost <=
           old(Now()).marks.parkLost + if p == probe then AbandonedPark(Lookup(old(entries), p)) else {}
    }

    /** What an operation on the record of p may change besides that record. */
    twostate predicate EntryOperation(p: Prefix)
      requires old(run) != [] && run != []
      reads this
    {
      && old(run) <= run
      && ParkLostOnlyAt(p)
      && (calm ==> RowsKeptBut(old(kernel), kernel, p))
      && (reliable && !old(halted) ==> !halted)
    }

    method ForgetPark(p: Prefix) returns (ok: bool)
      requires Settled() && p in entries && entries[p].park.Some? && entries[p].park.value.state == ParkRetiring
      requires p == probe ==> ClearParkOk(quiet, Now())
      modifies `entries, `disk, `diskGeneration, `halted, `run
      ensures Sound() && old(run) <= run && ok == !halted && (reliable ==> ok)
      ensures Now() == old(Now()).(mem := Now().mem, disk := Now().disk, marks := Now().marks) && Kept()
      ensures entries == old(entries)[p := old(entries)[p].(park := None)] && (ok ==> disk == entries)
    {
      ok := ClearPark(p);
      ok := Commit();
    }

    /** Completes a park retirement: exact delete, proven absence, clear, checkpoint. */
    method FinishParkRetirement(p: Prefix) returns (ok: bool)
      requires Settled() && p in entries && entries[p].park.Some? && entries[p].park.value.state == ParkRetiring
      requires p == probe ==> ParkRetirable(quiet, Now())
      modifies `entries, `disk, `diskGeneration, `kernel, `halted, `run
      ensures Sound() && EntryOperation(p) && Kept() && (reliable && calm ==> ok) && (ok ==> !halted)
      ensures entries == old(entries) || entries == old(entries)[p := old(entries)[p].(park := None)]
      ensures ok ==> entries == old(entries)[p := old(entries)[p].(park := None)] && disk == entries
      ensures Now().ours <= old(Now()).ours && (calm ==> Now().ours == old(Now()).ours)
      ensures calm ==> old(Rows(p)) - ParkRows(old(entries)[p].park.value) <= Rows(p) <= old(Rows(p))
      ensures calm && ok ==> Rows(p) == old(Rows(p)) - ParkRows(old(entries)[p].park.value)
    {
      ok := RemoveManagedPark(p);
      if ok {
        ok := Failpoint();
      }
      if ok {
        ok := ForgetPark(p);
      }
    }

    /** Makes retirement durable; the record keeps the evidence of an interrupted mutation. */
    method BeginRetirement(p: Prefix) returns (ok: bool)
      requires Settled() && p in entries
      modifies `entries, `disk, `diskGeneration, `halted, `run
      ensures Sound() && old(run) <= run && Kept()
      ensures ok == !halted && (reliable ==> ok)
      ensures p in entries && entries == old(entries)[p := entries[p]] && entries[p].state == Retiring
      ensures entries[p].park == old(entries)[p].park && RouteRows(entries[p]) == RouteRows(old(entries)[p])
    {
      ok := true;
      assert KeyOk(entries, p);
      if entries[p].state != Retiring {
        ok := Transition(p, entries[p].MarkRetiring());
        ok := Commit();
      }
    }

    method GiveUpPendingPark(p: Prefix) returns (ok: bool)
      requires Settled() && p in entries && entries[p].state == Retiring
      requires entries[p].park.Some? && entries[p].park.value.state == ParkPending
      modifies `entries, `disk, `diskGeneration, `halted, `run
      ensures Sound() && old(run) <= run && ok == !halted && (reliable ==> ok)
      ensures Now() == old(Now()).(mem := Now().mem, disk := Now().disk, marks := Now().marks) && ParkLostOnlyAt(p)
      ensures entries == old(entries)[p := old(entries)[p].(park := None)]
    {
      ok := ClearPark(p);
      ok := Commit();
    }

    /** Makes the retirement of an authorized park durable before its delete. */
    method BeginParkRetirement(p: Prefix) returns (ok: bool)
      requires Settled() && p in entries && entries[p].park.Some?
      requires entries[p].park.value.state == ParkApplying || entries[p].park.value.state == ParkActive
      requires p == probe && quiet ==> GiveUpParkOk(Now())
      modifies `entries, `disk, `diskGeneration, `halted, `run
      ensures Sound() && old(run) <= run && ok == !halted && (reliable ==> ok)
      ensures Now() == old(Now()).(mem := Now().mem, disk := Now().disk, marks := Now().marks) && Kept()
      ensures entries == old(entries)[p := old(entries)[p].MarkParkRetiring().value]
      ensures ok && p == probe ==> ParkRetirable(quiet, Now())
    {
      ok := MarkParkRetiring(p);
      ok := Commit();
    }

    /** Retires the park transaction of a retiring record in full. */
    method RetirePark(p: Prefix) returns (ok: bool)
      requires Settled() && p in entries && entries[p].state == Retiring
      modifies `entries, `disk, `diskGeneration, `kernel, `halted, `run
      ensures Sound() && EntryOperation(p) && (reliable && calm ==> ok) && (ok ==> !halted)
      ensures p in entries && entries == old(entries)[p := entries[p]]
      ensures entries[p] == old(entries)[p].(park := entries[p].park)
      ensures ok || old(entries)[p].park.None? ==> entries[p].park.None?
      ensures Now().ours <= old(Now()).ours
      ensures calm && ok ==>
                Rows(p) == if old(entries)[p].park.Some? && old(entries)[p].park.value.state != ParkPending
                           then old(Rows(p)) - ParkRows(old(entries)[p].park.value) else old(Rows(p))
    {
      ok := true;
      if entries[p].park.None? {
        return;
      }
      if entries[p].park.value.state == ParkPending {
        ok := GiveUpPendingPark(p);
        return;
      }
      if entries[p].park.value.state != ParkRetiring {
        ok := BeginParkRetirement(p);
        if !ok {
          return;
        }
      }
      ok := FinishParkRetirement(p);
    }

    /** Deletes the selected rows of a durably retiring record. */
    method RetireRows(p: Prefix) returns (ok: bool)
      requires Settled() && p in entries && entries[p].state == Retiring
      modifies `kernel, `run
      ensures Sound() && OnlyRows(p) && (reliable ==> ok)
      ensures calm && ok ==> Rows(p) == old(Rows(p)) - RouteRows(entries[p])
      ensures p == probe && ok ==> Now().ours <= Now().marks.lost
    {
      ok := RemoveSelectedRoute(p);
      if p == probe {
        NowInv();
      }
    }

    /** Drops the registry entry of a fully retired record. */
    method DropEntry(p: Prefix) returns (ok: bool)
      requires Settled() && p in entries && entries[p].state == Retiring && entries[p].park.None?
      requires p == probe ==> ForgetOk(quiet, Now())
      modifies `entries, `disk, `diskGeneration, `halted, `run
      ensures Sound() && old(run) <= run && Kept()
      ensures ok == !halted && (reliable ==> ok)
      ensures entries == old(entries) - {p} && (ok ==> disk == entries)
    {
      Remove(p);
      ok := Commit();
    }

    /** The first half of retirement: durable Retiring, then no authorized selected row is left. */
    method RetireSelected(p: Prefix) returns (ok: bool)
      requires Settled() && p in entries
      modifies `entries, `disk, `diskGeneration, `kernel, `halted, `run
      ensures Sound() && EntryOperation(p) && (reliable ==> ok) && (ok ==> !halted)
      ensures p in entries && entries == old(entries)[p := entries[p]] && entries[p].state == Retiring
      ensures entries[p].park == old(entries)[p].park && RouteRows(entries[p]) == RouteRows(old(entries)[p])
      ensures calm && ok ==> Rows(p) == old(Rows(p)) - RouteRows(entries[p])
      ensures p == probe && ok ==> Now().ours <= Now().marks.lost
    {
      ok := BeginRetirement(p);
      if ok {
        ok := RetireRows(p);
      }
    }

    /** The second half: the park transaction in full, then the registry entry. */
    method RetireRest(p: Prefix) returns (ok: bool)
      requires Settled() && p in entries && entries[p].state == Retiring
      requires calm ==> RouteRows(entries[p]) !! Rows(p)
      requires p == probe ==> Now().ours <= Now().marks.lost
      modifies `entries, `disk, `diskGeneration, `kernel, `halted, `run
      ensures Sound() && EntryOperation(p) && (reliable && calm ==> ok) && (ok ==> !halted)
      ensures ok ==> entries == old(entries) - {p} && disk == entries
      ensures !ok && !halted ==> RetiringAt(old(World()), World(), p) && entries == old(entries)[p := entries[p]]
      ensures calm && ok ==> Rows(p) == old(Rows(p)) - Doomed(old(entries)[p])
    {
      ok := RetirePark(p);
      if ok {
        assert p == probe ==> ForgetOk(quiet, Now());
        ok := DropEntry(p);
      }
    }

    /**
     The single retirement. From any settled state it completes unless the platform fails, whatever
     boundary an earlier attempt was interrupted at.
     */
    method RetireRecord(p: Prefix) returns (ok: bool)
      requires Settled()
      modifies `entries, `disk, `diskGeneration, `kernel, `halted, `run
      ensures Sound() && EntryOperation(p) && (reliable && calm ==> ok) && (ok ==> !halted)
      ensures ok ==> entries == old(entries) - {p}
      ensures ok && p in old(entries) ==> disk == entries
      ensures !ok && !halted ==> p in old(entries) && RetiringAt(old(World()), World(), p)
                                 && entries == old(entries)[p := entries[p]]
      ensures old(ParksFrozen()) && !halted ==> ParksFrozen()
      ensures calm && ok ==>
                Rows(p) == if p in old(entries) then old(Rows(p)) - Doomed(old(entries)[p]) else old(Rows(p))
    {
      if p !in entries {
        assert entries == entries - {p};
        return true;
      }
      ok := RetireSelected(p);
      if ok {
        assert entries - {p} == old(entries) - {p};
        ok := RetireRest(p);
      }
    }

    // ----- parking -----

    /** What a transaction on the park of p may change. */
    twostate predicate ParkTransaction(p: Prefix)
      requires old(run) != [] && run != []
      reads this
    {
      && EntryOperation(p) && NothingLost()
      && p in old(entries) && p in entries && entries == old(entries)[p := entries[p]]
      && entries[p] == old(entries)[p].(park := entries[p].park)
      && (calm ==> SameButParks(old(Rows(p)), Rows(p)))
    }

    method ReserveParkDurably(p: Prefix, x: ParkId, force: bool) returns (ok: bool)
      requires Settled() && p in entries && entries[p].state != Retiring && x.Valid(p)
      requires entries[p].park.None? || (force && entries[p].park.value.state in {ParkPending, ParkActive})
      modifies `entries, `disk, `diskGeneration, `halted, `run
      ensures Sound() && old(run) <= run && Kept()
      ensures ok == !halted && (reliable ==> ok)
      ensures entries == old(entries)[p := old(entries)[p].(
                park := Some(ParkTx(ParkPending, x,
                                    if old(entries)[p].park.Some? then old(entries)[p].park.value.owned else None,
                                    false)))]
    {
      assert KeyOk(entries, p);
      var next := entries[p].ReservePark(x, force);
      assert PlainMove(entries[p], next.value);
      ok := Transition(p, next);
      ok := Commit();
    }

    /** Only the record's own rows may share the prefix with a park. */
    method PreflightPark(p: Prefix) returns (res: Result<()>)
      requires Settled() && p in entries
      modifies `kernel, `halted, `run
      ensures Sound() && OnlyRows(p)
      ensures calm ==> Rows(p) == old(Rows(p))
      ensures (res.Ok? ==> !halted && Recognizes(entries[p], Rows(p))) && (reliable ==> !halted)
      ensures calm && reliable ==> (res.Ok? <==> Recognizes(entries[p], Rows(p)))
    {
      var ok, rows := ReadRows(p);
      if !ok {
        return Err(PlatformError);
      }
      if !Recognizes(entries[p], rows) {
        return Err(Error.RowConflict);
      }
      ok := Failpoint();
      return if ok then Ok(()) else Err(Interrupted);
    }

    method AuthorizePark(p: Prefix) returns (ok: bool)
      requires Settled() && p in entries && entries[p].state != Retiring
      requires entries[p].park.Some? && entries[p].park.value.state == ParkPending
      modifies `entries, `disk, `diskGeneration, `halted, `run
      ensures Sound() && old(run) <= run && Kept()
      ensures ok == !halted && (reliable ==> ok)
      ensures entries == old(entries)[p := ApplyingPark(old(entries)[p])]
      ensures ok && p == probe ==> ParkWriteOk(Now(), entries[p].park.value.desired)
    {
      ok := Transition(p, entries[p].MarkParkApplying());
      ok := Commit();
    }

    method ProvePark(p: Prefix) returns (ok: bool)
      requires Settled() && p in entries && entries[p].state != Retiring
      requires entries[p].park.Some? && entries[p].park.value.state == ParkApplying
      requires p == probe ==> Now().parks <= {entries[p].park.value.desired}
      modifies `entries, `disk, `diskGeneration, `halted, `run
      ensures Sound() && old(run) <= run && NothingLost() && Now().marks.lost == old(Now()).marks.lost
      ensures ok == !halted && (reliable ==> ok)
      ensures entries == old(entries) || entries == old(entries)[p := WithProvenPark(old(entries)[p])]
      ensures ok ==> entries == old(entries)[p := WithProvenPark(old(entries)[p])]
    {
      ok := Failpoint();
      if ok {
        assert KeyOk(entries, p);
        MarkParkActive(p);
        ok := Failpoint();
      }
      if ok {
        ok := Commit();
      }
    }

    /** The park mutation under a durable ParkApplying record, and its exact proof. */
    method InstallPark(p: Prefix) returns (res: Result<()>)
      requires Settled() && p in entries && entries[p].state != Retiring
      requires entries[p].park.Some? && entries[p].park.value.state == ParkApplying
      requires p == probe ==> ParkWriteOk(Now(), entries[p].park.value.desired)
      modifies `entries, `disk, `diskGeneration, `kernel, `halted, `run
      ensures Sound() && ParkTransaction(p)
      ensures res.Ok? ==> !halted && entries[p].park == Some(ProvenPark(old(entries)[p].park.value.desired))
      ensures res.Ok? ==> Park(old(entries)[p].park.value.desired) in Rows(p)
      ensures calm && res.Ok? ==> ParkIds(Rows(p)) == {old(entries)[p].park.value.desired}
      ensures calm && reliable ==> (res.Ok? <==> Recognizes(old(entries)[p], old(Rows(p))))
    {
      res := ReconcileManagedPark(p);
      if res.Ok? {
        var ok := ProvePark(p);
        if !ok {
          res := Err(Interrupted);
        }
      }
    }

    /** Durable ParkApplying, then the park mutation. */
    method ApplyPark(p: Prefix) returns (res: Result<()>)
      requires Settled() && p in entries && entries[p].state != Retiring
      requires entries[p].park.Some? && entries[p].park.value.state == ParkPending
      modifies `entries, `disk, `diskGeneration, `kernel, `halted, `run
      ensures Sound() && ParkTransaction(p)
      ensures res.Ok? ==> !halted && entries[p].park == Some(ProvenPark(old(entries)[p].park.value.desired))
      ensures res.Ok? ==> Park(old(entries)[p].park.value.desired) in Rows(p)
      ensures calm && res.Ok? ==> ParkIds(Rows(p)) == {old(entries)[p].park.value.desired}
      ensures calm && reliable && Recognizes(old(entries)[p], old(Rows(p))) ==> res.Ok?
    {
      if Recognizes(entries[p], Rows(p)) {
        ApplyingParkRecognizes(entries[p], Rows(p));
      }
      var ok := AuthorizePark(p);
      if !ok {
        return Err(Interrupted);
      }
      res := InstallPark(p);
    }

    /** Every row of p belongs to its record. */
    predicate Undisputed(p: Prefix)
      requires p in entries
      reads this`entries, this`kernel
    {
      Recognizes(entries[p], Rows(p))
    }

    /** Preflight and apply a Pending park. */
    method RunPark(p: Prefix) returns (res: Result<()>)
      requires Settled() && p in entries && entries[p].state != Retiring
      requires entries[p].park.Some? && entries[p].park.value.state == ParkPending
      modifies `entries, `disk, `diskGeneration, `kernel, `halted, `run
      ensures Sound() && ParkTransaction(p)
      ensures res.Ok? ==> !halted && entries[p].park == Some(ProvenPark(old(entries)[p].park.value.desired))
      ensures res.Ok? ==> Park(old(entries)[p].park.value.desired) in Rows(p)
      ensures calm && res.Ok? ==> ParkIds(Rows(p)) == {old(entries)[p].park.value.desired}
      ensures calm && reliable ==> (res.Ok? <==> old(Undisputed(p)))
    {
      res := PreflightPark(p);
      if res.Ok? {
        res := ApplyPark(p);
      }
    }

    /** Completes an interrupted park retirement of a record that recovery still protects. */
    method ResumeParkRetirement(p: Prefix) returns (ok: bool)
      requires Settled() && p in entries && entries[p].park.Some? && entries[p].park.value.state == ParkRetiring
      modifies `entries, `disk, `diskGeneration, `kernel, `halted, `run
      ensures Sound() && ParkTransaction(p) && (ok ==> !halted) && (calm && reliable ==> ok)
      ensures ok ==> entries[p].park.None? && disk == entries
      ensures calm && ok ==> Rows(p) == old(Rows(p)) - ParkRows(old(entries)[p].park.value)
      ensures calm && ok ==> (Undisputed(p) <==> old(Undisputed(p)))
    {
      RetiredParkRecognizes(entries[p], Rows(p));
      if p == probe {
        NowInv();
      }
      ok := FinishParkRetirement(p);
    }

    /** Brings the park transaction of p to Pending with identity x, preserving proven ownership. */
    method PreparePark(p: Prefix, x: ParkId) returns (res: Result<()>)
      requires Settled() && p in entries && entries[p].state != Retiring
      requires entries[p].park.Some? ==> entries[p].park.value.state in {ParkPending, ParkActive}
      modifies `entries, `disk, `diskGeneration, `halted, `run
      ensures Sound() && ParkTransaction(p)
      ensures !x.Valid(p) ==> res == Err(InvalidIdentity) && !halted && entries == old(entries) && disk == old(disk)
      ensures res.Ok? ==> !halted && entries[p] == PendingPark(old(entries)[p], x)
      ensures res.Ok? ==> (Undisputed(p) <==> old(Undisputed(p)))
      ensures reliable && x.Valid(p) ==> res.Ok?
    {
      assert KeyOk(entries, p);
      PendingParkRecognizes(entries[p], x, Rows(p));
      var ok := true;
      if entries[p].park.None? || entries[p].park.value.state != ParkPending || entries[p].park.value.desired != x {
        if !x.Valid(p) {
          return Err(InvalidIdentity);
        }
        ok := ReserveParkDurably(p, x, entries[p].park.Some?);
      }
      return if ok then Ok(()) else Err(Interrupted);
    }

    /** A park transaction from the start. */
    method StartPark(p: Prefix, x: ParkId) returns (res: Result<()>)
      requires Settled() && p in entries && entries[p].state != Retiring
      requires entries[p].park.Some? ==> entries[p].park.value.state in {ParkPending, ParkActive}
      modifies `entries, `disk, `diskGeneration, `kernel, `halted, `run
      ensures Sound() && ParkTransaction(p)
      ensures res.Ok? ==> !halted && entries[p].park == Some(ProvenPark(x)) && Park(x) in Rows(p)
      ensures calm && reliable ==> (res.Ok? <==> x.Valid(p) && old(Undisputed(p)))
      ensures calm && res.Ok? ==> ParkIds(Rows(p)) == {x}
    {
      res := PreparePark(p, x);
      if res.Ok? {
        res := RunPark(p);
      }
    }

    /** Starts the park transaction of p over, after finishing a retirement that was interrupted. */
    method Repark(p: Prefix, x: ParkId) returns (res: Result<()>)
      requires Settled() && p in entries && entries[p].state != Retiring && !IsWedged(entries[p])
      modifies `entries, `disk, `diskGeneration, `kernel, `halted, `run
      ensures Sound() && ParkTransaction(p)
      ensures res.Ok? ==> !halted && entries[p].park == Some(ProvenPark(x)) && Park(x) in Rows(p)
      ensures calm && reliable ==> (res.Ok? <==> x.Valid(p) && old(Undisputed(p)))
      ensures calm && res.Ok? ==> ParkIds(Rows(p)) == {x}
    {
      if entries[p].park.Some? && entries[p].park.value.state == ParkRetiring {
        var ok := ResumeParkRetirement(p);
        if !ok {
          return Err(PlatformError);
        }
      }
      res := StartPark(p, x);
    }

    /** Resumes the park transaction of one record by its persisted state. */
    method ParkOne(p: Prefix, x: ParkId) returns (res: Result<()>)
      requires Settled() && p in entries && entries[p].state != Retiring
      modifies `entries, `disk, `diskGeneration, `kernel, `halted, `run
      ensures Sound() && ParkTransaction(p)
      ensures res.Ok? ==> !halted && entries[p].park == Some(ProvenPark(x)) && Park(x) in Rows(p)
      ensures IsWedged(old(entries)[p]) ==>
                res == Err(IllegalTransition) && entries == old(entries) && disk == old(disk) && kernel == old(kernel)
      ensures calm && reliable && !IsWedged(old(entries)[p]) ==>
                (res.Ok? <==> AlreadyParked(old(entries)[p], x, old(Rows(p))) || (x.Valid(p) && old(Undisputed(p))))
      ensures calm && res.Ok? && old(Undisputed(p)) ==> ParkIds(Rows(p)) == {x}
    {
      if entries[p].park.Some? && entries[p].park.value.state == ParkApplying {
        // Marking an Applying park Applying again is illegal, so the transaction cannot resume.
        var again := Transition(p, entries[p].MarkParkApplying());
        return Err(IllegalTransition);
      }
      if entries[p].park.Some? && entries[p].park.value.state == ParkActive && entries[p].park.value.desired == x {
        assert KeyOk(entries, p);
        var read, rows := ReadRows(p);
        if !read {
          return Err(PlatformError);
        }
        if Park(x) in rows {
          if calm && Undisputed(p) {
            ActiveParkAlone(entries[p], rows);
          }
          return Ok(());
        }
      }
      res := Repark(p, x);
    }

    // ----- the recovery steps over the whole role -----

    /** One turn of the parking loop: retirement owns the records it has begun. */
    method ParkTurn(p: Prefix, parkOf: Prefix -> ParkId) returns (res: Result<()>)
      requires Settled() && p in entries
      modifies `entries, `disk, `diskGeneration, `kernel, `halted, `run
      ensures Sound() && old(run) <= run && NothingLost() && (reliable ==> !halted)
      ensures OnlyAt(calm, old(World()), World(), p) && KeptAt(calm, old(World()), World(), p)
      ensures res.Ok? ==> !halted && ParkedAt(calm, parkOf, old(World()), World(), p)
      ensures calm && reliable ==> (res.Ok? <==> Parkable(parkOf, old(World()), p))
    {
      if entries[p].state == Retiring {
        return Ok(());
      }
      var normalized := Fallible();
      if !normalized {
        return Err(PlatformError);
      }
      res := ParkOne(p, parkOf(p));
    }

    /**
     Installs and proves the park of every record that is not retiring. A durable ParkApplying record blocks it
     for ever, and so does an invalid park identity or a foreign row; nothing else stops a reliable platform.
     */
    method ParkRegistered(parkOf: Prefix -> ParkId) returns (res: Result<()>)
      requires Settled()
      modifies `entries, `disk, `diskGeneration, `kernel, `halted, `run
      ensures Sound() && old(run) <= run && NothingLost() && (reliable ==> !halted)
      ensures !frozen ==> res == Err(NotFrozen) && entries == old(entries) && kernel == old(kernel)
      ensures entries.Keys == old(entries).Keys && forall q :: KeptAt(calm, old(World()), World(), q)
      ensures res.Ok? ==> !halted && forall q :: ParkedAt(calm, parkOf, old(World()), World(), q)
      ensures calm && reliable && frozen ==> (res.Ok? <==> AllParkable(parkOf, old(World())))
    {
      if !frozen {
        return Err(NotFrozen);
      }
      ghost var w0 := World();
      var todo := entries.Keys;
      while todo != {}
        invariant Settled() && old(run) <= run && NothingLost()
        invariant entries.Keys == old(entries).Keys && todo <= entries.Keys
        invariant forall q :: ParkProgress(calm, reliable, parkOf, todo, w0, World(), q)
        decreases |todo|
      {
        var p :| p in todo;
        ghost var w := World();
        res := ParkTurn(p, parkOf);
        ParkAdvances(calm, reliable, parkOf, todo, p, w0, w, World());
        if res.Err? {
          assert calm && reliable ==> !Parkable(parkOf, w0, p);
          return;
        }
        todo := todo - {p};
      }
      forall q
        ensures KeptAt(calm, w0, World(), q) && ParkedAt(calm, parkOf, w0, World(), q)
        ensures calm && reliable ==> Parkable(parkOf, w0, q)
      {
        assert ParkProgress(calm, reliable, parkOf, {}, w0, World(), q);
      }
      return Ok(());
    }

    /** Every record that is not retiring carries an exact Active park that is really there. */
    method ObserveParks() returns (res: Result<()>)
      requires Settled()
      modifies `kernel, `run
      ensures Settled() && old(run) <= run && Kept()
      ensures calm ==> kernel == old(kernel) && run == old(run)
      ensures res.Ok? ==> AllProtected(calm, World())
      ensures calm && reliable && AllProtected(calm, World()) ==> res.Ok?
    {
      var todo := entries.Keys;
      while todo != {}
        invariant Settled() && old(run) <= run && Kept()
        invariant calm ==> kernel == old(kernel) && run == old(run)
        invariant todo <= entries.Keys && forall q :: q in todo || ProtectedAt(calm, World(), q)
        decreases |todo|
      {
        var p :| p in todo;
        if entries[p].state != Retiring {
          if !IsParked(entries[p]) {
            assert !ProtectedAt(calm, World(), p);
            return Err(NotProtected);
          }
          var ok, rows := ReadRows(p);
          if !ok {
            return Err(PlatformError);
          }
          if Park(entries[p].park.value.desired) !in rows {
            assert calm ==> !ProtectedAt(calm, World(), p);
            return Err(NotProtected);
          }
        }
        todo := todo - {p};
      }
      return Ok(());
    }

    /** Deletes the exact selected rows of every protected record. */
    method RemoveProtectedRows() returns (ok: bool)
      requires Settled() && AllProtected(calm, World())
      modifies `kernel, `run
      ensures Settled() && old(run) <= run && Kept()
      ensures AllProtected(calm, World())
      ensures ok ==> AllWithdrawnAt(calm, old(World()), World())
      ensures reliable ==> ok
    {
      var todo := entries.Keys;
      while todo != {}
        invariant Settled() && old(run) <= run && Kept()
        invariant todo <= entries.Keys
        invariant forall q :: ProtectedAt(calm, World(), q)
        invariant forall q :: WithdrawnAt(calm, todo, old(World()), World(), q)
        decreases |todo|
      {
        var p :| p in todo;
        ghost var w := World();
        assert ProtectedAt(calm, w, p);
        ok := true;
        if entries[p].state != Retiring {
          ok := RemoveSelectedRoute(p);
        }
        WithdrawAdvances(calm, todo, p, old(World()), w, World(), ok);
        if !ok {
          return;
        }
        todo := todo - {p};
      }
      return true;
    }

    /** Removes the exact selected rows once every record is protected; ownership stays on record. */
    method WithdrawSelected() returns (res: Result<()>)
      requires Settled()
      modifies `kernel, `run
      ensures Settled() && old(run) <= run && Kept()
      ensures !frozen ==> res == Err(NotFrozen) && kernel == old(kernel)
      ensures res.Ok? ==> AllProtected(calm, World())
      ensures res.Ok? ==> AllWithdrawnAt(calm, old(World()), World())
      ensures calm && reliable && frozen ==> (res.Ok? <==> AllProtected(calm, old(World())))
    {
      if !frozen {
        return Err(NotFrozen);
      }
      res := ObserveParks();
      if res.Err? {
        return;
      }
      var ok := RemoveProtectedRows();
      if !ok {
        return Err(PlatformError);
      }
      ghost var w := World();
      res := ObserveParks();
      assert calm ==> World() == w;
    }

    // ----- unparking -----

    /** Without outside edits, a park may go when its row is gone already or the selected row is live. */
    lemma MayGiveUp(p: Prefix)
      requires Settled() && quiet && p == probe && p in entries && entries[p].state == Active
      requires entries[p].park.Some? && entries[p].park.value.state == ParkActive
      requires Park(entries[p].park.value.desired) !in Rows(p) || Route(entries[p].desired) in Rows(p)
      ensures GiveUpParkOk(Now())
    {
      NowInv();
    }

    /** Reads the live rows for the proof that the restored row has taken over from its park. */
    method ProveRestoration(p: Prefix) returns (res: Result<()>)
      requires Settled() && p in entries && entries[p].park.Some? && entries[p].park.value.state == ParkActive
      modifies `kernel, `run
      ensures Settled() && OnlyRows(p) && (calm ==> kernel == old(kernel) && run == old(run))
      ensures res.Ok? && p == probe && quiet ==> GiveUpParkOk(Now())
      ensures calm && reliable ==> (res.Ok? <==> Winning(entries[p], Rows(p)))
      ensures calm && reliable && NotYet(World(), p) ==> res == Err(NotProven)
      ensures calm && res.Ok? ==> Winning(entries[p], Rows(p))
      ensures res.Ok? ==> entries[p].state == Active
    {
      var r := entries[p];
      assert KeyOk(entries, p);
      if r.state != Active {
        return Err(NotProven);
      }
      var park := r.park.value.desired;
      var ok, rows := ReadRows(p);
      if !ok {
        return Err(PlatformError);
      }
      if Park(park) in rows {
        ok, rows := ReadRows(p);
        if !ok {
          return Err(PlatformError);
        }
        if exists row <- rows :: row.Foreign? || (row.Park? && row.park != park) {
          return Err(Error.RowConflict);
        }
        if Route(r.desired) !in rows {
          return Err(NotProven);
        }
        if r.desired.metric >= park.metric {
          return Err(NotWinning);
        }
      }
      if quiet && p == probe {
        MayGiveUp(p);
      }
      return Ok(());
    }

    /** Deletes the durably retiring park, and proves that the selected row is still there. */
    method DeleteProvenPark(p: Prefix) returns (res: Result<()>)
      requires Settled() && p in entries && entries[p].park.Some? && entries[p].park.value.state == ParkRetiring
      requires p == probe ==> ParkRetirable(quiet, Now())
      modifies `kernel, `halted, `run
      ensures Sound() && OnlyRows(p) && (reliable ==> !halted) && res != Err(NotProven)
      ensures calm ==> old(Rows(p)) - ParkRows(entries[p].park.value) <= Rows(p) <= old(Rows(p))
      ensures res.Ok? ==> !halted && Route(entries[p].desired) in Rows(p)
      ensures res.Ok? && entries[p].park.value.owned.Some? ==> Park(entries[p].park.value.owned.value) !in Rows(p)
      ensures res.Ok? && p == probe ==> Now().parks <= Now().marks.parkLost
      ensures calm && res.Ok? ==> Rows(p) == old(Rows(p)) - ParkRows(entries[p].park.value)
      ensures calm && reliable ==> (res.Ok? <==> Route(entries[p].desired) in old(Rows(p)))
    {
      var ok := RemoveManagedPark(p);
      if !ok {
        return Err(PlatformError);
      }
      ok := Failpoint();
      if !ok {
        return Err(Interrupted);
      }
      var rows;
      ok, rows := ReadRows(p);
      var owned := entries[p].park.value.owned;
      if !ok || Route(entries[p].desired) !in rows || (owned.Some? && Park(owned.value) in rows) {
        return Err(PlatformError);
      }
      return Ok(());
    }

    /** The exact delete under a durable ParkRetiring record, and the end of the park transaction. */
    method FinishUnpark(p: Prefix) returns (res: Result<()>)
      requires Settled() && p in entries && entries[p].park.Some? && entries[p].park.value.state == ParkRetiring
      requires p == probe ==> ParkRetirable(quiet, Now())
      modifies `entries, `disk, `diskGeneration, `kernel, `halted, `run
      ensures Sound() && ParkTransaction(p) && res != Err(NotProven)
      ensures res.Ok? ==> !halted && entries[p].park.None? && Route(entries[p].desired) in Rows(p)
      ensures calm && res.Ok? ==> Rows(p) == old(Rows(p)) - ParkRows(old(entries)[p].park.value)
      ensures calm && reliable ==> (res.Ok? <==> Route(old(entries)[p].desired) in old(Rows(p)))
    {
      res := DeleteProvenPark(p);
      if res.Ok? {
        var ok := ForgetPark(p);
        if !ok {
          res := Err(Interrupted);
        }
      }
    }

    /** Durable ParkRetiring, then the delete of the park. */
    method Unpark(p: Prefix) returns (res: Result<()>)
      requires Settled() && p in entries && entries[p].park.Some? && entries[p].park.value.state == ParkActive
      requires p == probe && quiet ==> GiveUpParkOk(Now())
      modifies `entries, `disk, `diskGeneration, `kernel, `halted, `run
      ensures Sound() && ParkTransaction(p) && res != Err(NotProven)
      ensures res.Ok? ==> !halted && entries[p].park.None? && Route(entries[p].desired) in Rows(p)
      ensures calm && res.Ok? ==> Rows(p) == old(Rows(p)) - ParkRows(old(entries)[p].park.value)
      ensures calm && reliable ==> (res.Ok? <==> Route(old(entries)[p].desired) in old(Rows(p)))
    {
      assert KeyOk(entries, p);
      var ok := BeginParkRetirement(p);
      if !ok {
        return Err(Interrupted);
      }
      res := FinishUnpark(p);
    }

    /** The exact unpark of one record; a park whose record is not proven yet is left alone. */
    method RetireProvenPark(p: Prefix) returns (res: Result<()>)
      requires Settled() && p in entries && entries[p].park.Some? && entries[p].park.value.state == ParkActive
      modifies `entries, `disk, `diskGeneration, `kernel, `halted, `run
      ensures Sound() && ParkTransaction(p)
      ensures res.Ok? ==> !halted && Route(entries[p].desired) in Rows(p)
      ensures res.Ok? ==> UnparkedAt(calm, old(World()), World(), p)
      ensures res == Err(NotProven) ==> entries == old(entries) && !halted && (calm ==> kernel == old(kernel))
      ensures calm && reliable ==> (res.Ok? <==> Restored(old(entries)[p], old(Rows(p))))
      ensures calm && reliable && NotYet(old(World()), p) ==> res == Err(NotProven)
    {
      res := ProveRestoration(p);
      if res.Ok? {
        res := Unpark(p);
      }
    }

    /** One turn of the unparking loop. */
    method UnparkTurn(p: Prefix) returns (res: Result<()>)
      requires Settled() && p in entries
      modifies `entries, `disk, `diskGeneration, `kernel, `halted, `run
      ensures Sound() && old(run) <= run && NothingLost() && (reliable ==> !halted)
      ensures OnlyAt(calm, old(World()), World(), p) && KeptAt(calm, old(World()), World(), p)
      ensures res.Ok? ==> !halted && UnparkTurned(calm, old(World()), World(), p)
      ensures calm && reliable && Unparkable(old(World()), p) ==> res.Ok? && entries[p].park.None?
      ensures calm && reliable && NotYet(old(World()), p) ==> res.Ok?
    {
      if entries[p].park.None? {
        return Ok(());
      }
      match entries[p].park.value.state {
        case ParkPending => return Err(StillParked);
        case ParkApplying => return Err(StillParked);
        case ParkActive =>
          res := RetireProvenPark(p);
          if res == Err(NotProven) {
            res := Ok(());
          }
        case ParkRetiring =>
          var ok := ResumeParkRetirement(p);
          res := if ok then Ok(()) else Err(PlatformError);
      }
    }

    /** The turn of p, and what it leaves of the work that the loop began in w0. */
    method UnparkStep(p: Prefix, ghost todo: set<Prefix>, ghost w0: Stores) returns (res: Result<()>)
      requires Settled() && p in todo && todo <= entries.Keys && entries.Keys == w0.entries.Keys
      requires forall q :: UnparkProgress(calm, reliable, todo, w0, World(), q)
      modifies `entries, `disk, `diskGeneration, `kernel, `halted, `run
      ensures Sound() && old(run) <= run && NothingLost() && entries.Keys == old(entries).Keys && (reliable ==> !halted)
      ensures forall q :: KeptAt(calm, w0, World(), q)
      ensures res.Ok? ==> !halted && forall q :: UnparkProgress(calm, reliable, todo - {p}, w0, World(), q)
      ensures calm && reliable && res.Err? ==> !Unparkable(w0, p) && !NotYet(w0, p)
    {
      res := UnparkTurn(p);
      UnparkAdvances(calm, reliable, todo, p, w0, old(World()), World());
    }

    /** One pass over the role; the parks that are not proven yet stay. */
    method UnparkAll() returns (res: Result<()>)
      requires Settled()
      modifies `entries, `disk, `diskGeneration, `kernel, `halted, `run
      ensures Sound() && old(run) <= run && NothingLost() && (reliable ==> !halted)
      ensures entries.Keys == old(entries).Keys && forall q :: KeptAt(calm, old(World()), World(), q)
      ensures res.Ok? ==> !halted
      ensures res.Ok? ==> forall q :: UnparkProgress(calm, reliable, {}, old(World()), World(), q)
      ensures calm && reliable && res.Err? ==> exists q :: !Unparkable(old(World()), q) && !NotYet(old(World()), q)
    {
      ghost var w0 := World();
      var todo := entries.Keys;
      while todo != {}
        invariant Settled() && old(run) <= run && NothingLost()
        invariant entries.Keys == old(entries).Keys && todo <= entries.Keys
        invariant forall q :: UnparkProgress(calm, reliable, todo, w0, World(), q)
        decreases |todo|
      {
        var p :| p in todo;
        res := UnparkStep(p, todo, w0);
        if res.Err? {
          return;
        }
        todo := todo - {p};
      }
      forall q ensures KeptAt(calm, w0, World(), q) {
        assert UnparkProgress(calm, reliable, {}, w0, World(), q);
      }
      return Ok(());
    }

    /** Retires every park whose record is proven, and succeeds exactly when no park transaction is left. */
    method ObserveRestoration() returns (res: Result<()>)
      requires Settled()
      modifies `entries, `disk, `diskGeneration, `kernel, `halted, `run
      ensures Sound() && old(run) <= run && NothingLost() && (reliable ==> !halted)
      ensures entries.Keys == old(entries).Keys && forall q :: KeptAt(calm, old(World()), World(), q)
      ensures res.Ok? ==> !halted && forall q :: UnparkedAt(calm, old(World()), World(), q)
      ensures res.Ok? ==> forall q <- entries :: entries[q].park.None?
      ensures calm && reliable ==> (res.Ok? <==> forall q :: Unparkable(old(World()), q))
      ensures calm && reliable && (forall q :: Unparkable(old(World()), q) || NotYet(old(World()), q)) ==>
                forall q :: UnparkProgress(calm, reliable, {}, old(World()), World(), q)
    {
      ghost var w0 := World();
      res := UnparkAll();
      if res.Err? {
        return;
      }
      if exists q <- entries :: entries[q].park.Some? {
        ghost var q :| q in entries && entries[q].park.Some?;
        assert UnparkProgress(calm, reliable, {}, w0, World(), q);
        return Err(StillParked);
      }
      forall q ensures UnparkedAt(calm, w0, World(), q) && (calm ==> Unparkable(w0, q)) {
        assert UnparkProgress(calm, reliable, {}, w0, World(), q);
      }
    }

    // ----- restoration -----

    /** Evidence is lost at most by re-reserving p to id while another identity was in flight and unproven. */
    twostate predicate LostOnlyAt(p: Prefix, id: RouteId)
      requires old(run) != [] && run != []
      reads this`run
    {
      && Now().marks.parkLost <= old(Now()).marks.parkLost
      && Now().marks.lost <= old(Now()).marks.lost + if p == probe then Dropped(Lookup(old(entries), p), id) else {}
    }

    /** A write runs ahead of the checkpoint at most by restoring p under another identity while one was in flight. */
    twostate predicate AheadOnlyAt(p: Prefix, id: RouteId)
      requires old(run) != [] && run != []
      reads this`run
    {
      Now().marks.ahead ==>
        || old(Now()).marks.ahead || Diverged(old(Now()))
        || (p == probe && p in old(entries) && RewritesInFlight(old(entries)[p], id))
    }

    /** Reserves the current identity of one record and drives the canonical transaction. */
    method Reapply(p: Prefix, t: Target, id: RouteId) returns (res: Result<()>)
      requires Settled() && p in entries && entries[p].state != Retiring
      modifies `entries, `disk, `diskGeneration, `kernel, `halted, `run
      ensures Sound() && old(run) <= run && (reliable ==> !halted)
      ensures LostOnlyAt(p, id) && AheadOnlyAt(p, id)
      ensures OnlyAt(calm, old(World()), World(), p) && ParkKeptAt(calm, old(World()), World(), p)
      ensures res.Ok? ==> !halted && entries[p] == Proven(Retargeted(t, old(entries)[p], id))
      ensures calm && res.Ok? ==> RouteIds(Rows(p)) == {id}
      ensures calm && reliable ==>
                (res.Ok? <==> id.Valid(p) && Accepts(old(Rows(p)), Retargeted(t, old(entries)[p], id)))
    {
      var r := entries[p];
      var ok := Reserve(p, r.zone, r.source, t.runtime.toadGeneration, t.routeGeneration, t.runtime.iface, id);
      if !ok {
        return Err(InvalidIdentity);
      }
      var mutated := ReconcileRecord(p);
      return if mutated.Ok? then Ok(()) else Err(mutated.error);
    }

    /** One turn of the restoring loop. */
    method ReapplyTurn(p: Prefix, t: Target, identityOf: Prefix -> RouteId) returns (res: Result<()>)
      requires Settled() && p in entries
      modifies `entries, `disk, `diskGeneration, `kernel, `halted, `run
      ensures Sound() && old(run) <= run && (reliable ==> !halted)
      ensures LostOnlyAt(p, identityOf(p)) && AheadOnlyAt(p, identityOf(p))
      ensures OnlyAt(calm, old(World()), World(), p) && ParkKeptAt(calm, old(World()), World(), p)
      ensures SkippedAt(calm, t, old(World()), World(), p)
      ensures res.Ok? ==> !halted && ReappliedAt(calm, t, identityOf, old(World()), World(), p)
      ensures calm && reliable ==> (res.Ok? <==> Reappliable(t, identityOf, old(World()), p))
    {
      assert KeyOk(entries, p);
      if Skips(t, entries[p]) {
        return Ok(());
      }
      var normalized := Fallible();
      if !normalized {
        return Err(PlatformError);
      }
      res := Reapply(p, t, identityOf(p));
    }

    /** The turn of p, and what it leaves of the work that the loop began in w0. */
    method ReapplyStep(p: Prefix, t: Target, identityOf: Prefix -> RouteId, ghost todo: set<Prefix>, ghost w0: Stores)
      returns (res: Result<()>)
      requires Settled() && p in todo && todo <= entries.Keys && entries.Keys == w0.entries.Keys
      requires forall q :: ReapplyProgress(calm, t, identityOf, todo, w0, World(), q)
      modifies `entries, `disk, `diskGeneration, `kernel, `halted, `run
      ensures Sound() && old(run) <= run && entries.Keys == old(entries).Keys && (reliable ==> !halted)
      ensures LostOnlyAt(p, identityOf(p)) && old(entries)[p] == w0.entries[p]
      ensures forall q :: ParkKeptAt(calm, w0, World(), q) && SkippedAt(calm, t, w0, World(), q)
      ensures res.Ok? ==> !halted && forall q :: ReapplyProgress(calm, t, identityOf, todo - {p}, w0, World(), q)
      ensures calm && reliable ==> (res.Ok? <==> Reappliable(t, identityOf, w0, p))
    {
      res := ReapplyTurn(p, t, identityOf);
      ReapplyAdvances(calm, t, identityOf, todo, p, w0, old(World()), World());
    }

    method ReapplyAll(t: Target, identityOf: Prefix -> RouteId) returns (res: Result<()>)
      requires Settled()
      modifies `entries, `disk, `diskGeneration, `kernel, `halted, `run
      ensures Sound() && old(run) <= run && (reliable ==> !halted) && (res.Ok? ==> !halted)
      ensures LostOnlyAt(probe, identityOf(probe))
      ensures entries.Keys == old(entries).Keys
      ensures forall q :: ParkKeptAt(calm, old(World()), World(), q) && SkippedAt(calm, t, old(World()), World(), q)
      ensures res.Ok? ==> forall q :: ReappliedAt(calm, t, identityOf, old(World()), World(), q)
      ensures calm && reliable ==> (res.Ok? <==> AllReappliable(t, identityOf, old(World())))
    {
      ghost var w0 := World();
      var todo := entries.Keys;
      while todo != {}
        invariant Settled() && old(run) <= run
        invariant LostOnlyAt(probe, identityOf(probe))
        invariant entries.Keys == old(entries).Keys && todo <= entries.Keys
        invariant forall q :: ReapplyProgress(calm, t, identityOf, todo, w0, World(), q)
        invariant calm && reliable ==> forall q :: q in todo || Reappliable(t, identityOf, w0, q)
        decreases |todo|
      {
        var p :| p in todo;
        res := ReapplyStep(p, t, identityOf, todo, w0);
        if res.Err? {
          assert calm && reliable ==> !Reappliable(t, identityOf, w0, p);
          return;
        }
        todo := todo - {p};
      }
      forall q
        ensures ParkKeptAt(calm, w0, World(), q) && SkippedAt(calm, t, w0, World(), q)
        ensures ReappliedAt(calm, t, identityOf, w0, World(), q)
      {
        assert ReapplyProgress(calm, t, identityOf, {}, w0, World(), q);
      }
      return Ok(());
    }

    /** Re-applies the registered routes of the ready families to the current interface; parks stay. */
    method Restore(runtime: Runtime, identityOf: Prefix -> RouteId) returns (res: Result<()>)
      requires Settled()
      modifies `entries, `disk, `diskGeneration, `kernel, `halted, `run
      ensures Sound() && old(run) <= run && (reliable ==> !halted)
      ensures LostOnlyAt(probe, identityOf(probe))
      ensures entries.Keys == old(entries).Keys && forall q :: ParkKeptAt(calm, old(World()), World(), q)
      ensures forall q :: PutAt(calm, runtime, old(World()), World(), q)
      ensures res.Ok? ==> !halted && disk == entries
      ensures res.Ok? ==>
                forall q :: ReappliedAt(calm, Target(runtime, routeGeneration), identityOf, old(World()), World(), q)
      ensures res.Ok? ==>
                forall q :: RestoredAt(calm, Target(runtime, routeGeneration), identityOf, old(World()), World(), q)
      ensures calm && reliable ==>
                (res.Ok? <==> runtime.ifIndex > 0 &&
                              AllReappliable(Target(runtime, routeGeneration), identityOf, old(World())))
    {
      if runtime.ifIndex <= 0 {
        return Err(NoInterface);
      }
      var t := Target(runtime, routeGeneration);
      res := ReapplyAll(t, identityOf);
      forall q
        ensures PutAt(calm, runtime, old(World()), World(), q)
        ensures res.Ok? ==> RestoredAt(calm, t, identityOf, old(World()), World(), q)
      {
        assert KeyOk(old(entries), q);
        RestorationIsExact(calm, t, identityOf, old(World()), World(), q);
      }
      if res.Ok? {
        var ok := WriteCheckpoint(routeGeneration);
        res := if ok then Ok(()) else Err(Interrupted);
      }
    }

    // ----- recovery -----

    /** Parks every prefix of the frozen role, then withdraws the selected rows. */
    method Protect(aim: Aim) returns (res: Result<()>)
      requires Settled()
      modifies `entries, `disk, `diskGeneration, `kernel, `halted, `run
      ensures Sound() && old(run) <= run && entries.Keys == old(entries).Keys && (reliable ==> !halted)
      ensures res.Ok? ==> !halted && frozen && forall q :: ProtectedAt(calm, World(), q)
      ensures !frozen ==> entries == old(entries)
      ensures calm && reliable && frozen && AllReady(aim, old(World())) ==>
                res.Ok? && AllWithdrawn(aim, old(World()), World())
    {
      ghost var w0 := World();
      assert forall q :: Ready(aim, w0, q) ==> Parkable(aim.parkOf, w0, q);
      res := ParkRegistered(aim.parkOf);
      if res.Err? {
        return;
      }
      ghost var w1 := World();
      if calm && reliable && AllReady(aim, w0) {
        forall q ensures AfterPark(aim, w0, w1, q) && ProtectedAt(true, w1, q) { ParkStage(aim, w0, w1, q); }
      }
      res := WithdrawSelected();
      if calm && reliable && AllReady(aim, w0) {
        forall q ensures AfterWithdraw(aim, w0, World(), q) { WithdrawStage(aim, w0, w1, World(), q); }
      }
    }

    /** Restores the selected rows on the current interface, then gives up the parks they replace. */
    method Reinstate(aim: Aim, ghost w0: Stores) returns (res: Result<()>)
      requires Settled() && aim.target.routeGeneration == routeGeneration
      modifies `entries, `disk, `diskGeneration, `kernel, `halted, `run
      ensures Sound() && old(run) <= run && entries.Keys == old(entries).Keys && (reliable ==> !halted)
      ensures res.Ok? ==> !halted && forall q <- entries :: entries[q].park.None?
      ensures calm && reliable && w0.entries.Keys == old(entries).Keys && aim.target.runtime.ifIndex > 0
              && AllReady(aim, w0) && AllWithdrawn(aim, w0, old(World())) ==>
                && (res.Ok? <==> AllMove(aim, w0))
                && AllRecovered(aim, w0, World())
    {
      ghost var w2 := World();
      ghost var ready := calm && reliable && w0.entries.Keys == entries.Keys && aim.target.runtime.ifIndex > 0
                         && AllReady(aim, w0) && AllWithdrawn(aim, w0, w2);
      if ready {
        forall q ensures Reappliable(aim.target, aim.identityOf, w2, q) {
          assert Ready(aim, w0, q) && AfterWithdraw(aim, w0, w2, q);
        }
      }
      res := Restore(aim.target.runtime, aim.identityOf);
      if res.Err? {
        return;
      }
      ghost var w3 := World();
      if ready {
        forall q
          ensures AfterRestore(aim, w0, w3, q) && Unparkable(w3, q) == Moves(aim, w0, q)
          ensures Unparkable(w3, q) || NotYet(w3, q)
        {
          RestoreStage(aim, w0, w2, w3, q);
        }
      }
      res := ObserveRestoration();
      if ready {
        forall q ensures RecoveredAt(aim, w0, World(), q) { UnparkStage(aim, w0, w3, World(), q); }
      }
    }

    method Freeze()
      modifies `frozen
      ensures frozen
    {
      frozen := true;
    }

    /** Re-opens the role under a new route generation. A pending startup restore stays pending. */
    method Unfreeze()
      modifies `frozen, `routeGeneration
      ensures !frozen && routeGeneration == old(routeGeneration) + 1
    {
      frozen := false;
      routeGeneration := routeGeneration + 1;
    }

    /** Ends the startup freeze under the seeded generation. */
    method EndStartupRestore()
      requires Unparked(World())
      modifies `frozen, `restorePending
      ensures !frozen && !restorePending && ParksFrozen()
    {
      frozen, restorePending := false, false;
    }

    /**
     One managed recovery. A failed one leaves the role frozen. On a healthy role it succeeds exactly when
     every record changes its interface, and either way each prefix ends with exactly one row: the new
     selected row, or its park.
     */
    method Recover(runtime: Runtime, identityOf: Prefix -> RouteId, parkOf: Prefix -> ParkId) returns (res: Result<()>)
      requires Settled()
      modifies `entries, `disk, `diskGeneration, `kernel, `halted, `run, `frozen, `routeGeneration
      ensures Sound() && ParksFrozen() && old(run) <= run && entries.Keys == old(entries).Keys
      ensures frozen == res.Err? && routeGeneration == old(routeGeneration) + if res.Ok? then 1 else 0
      ensures res.Ok? || reliable ==> !halted
      ensures var aim := Aim(Target(runtime, old(routeGeneration)), identityOf, parkOf);
              calm && reliable && runtime.ifIndex > 0 && AllReady(aim, old(World())) ==>
                && (res.Ok? <==> AllMove(aim, old(World())))
                && AllRecovered(aim, old(World()), World())
    {
      Freeze();
      var aim := Aim(Target(runtime, routeGeneration), identityOf, parkOf);
      res := Protect(aim);
      if res.Ok? {
        res := Reinstate(aim, old(World()));
      }
      if res.Ok? {
        Unfreeze();
      }
    }

    // ----- intents -----

    /** Checkpoints the reservation before anything else happens. */
    method ReserveDurably(p: Prefix, zone: string, source: Source, runtime: Runtime, id: RouteId)
      returns (res: Result<()>)
      requires Settled() && ParksFrozen()
      modifies `entries, `disk, `diskGeneration, `halted, `run
      ensures Sound() && ParksFrozen() && old(run) <= run && LostOnlyAt(p, id) && (reliable ==> !halted)
      ensures (Now().marks.ahead ==> old(Now()).marks.ahead) && (res.Ok? ==> !Now().marks.ahead && !Diverged(Now()))
      ensures !id.Valid(p) ==> res == Err(InvalidIdentity) && entries == old(entries) && !halted
      ensures id.Valid(p) ==>
                && res.Ok? == !halted
                && entries == old(entries)[p := old(Reservation(p, zone, source, runtime.toadGeneration, routeGeneration,
                                                                runtime.iface, id))]
    {
      var ok := Reserve(p, zone, source, runtime.toadGeneration, routeGeneration, runtime.iface, id);
      if !ok {
        return Err(InvalidIdentity);
      }
      ok := Commit();
      return if ok then Ok(()) else Err(Interrupted);
    }

    /** The slow path of an Ensure: durable reservation, then the canonical transaction. */
    method Ensure(p: Prefix, zone: string, source: Source, runtime: Runtime, id: RouteId) returns (res: Result<bool>)
      requires Settled() && ParksFrozen()
      modifies `entries, `disk, `diskGeneration, `kernel, `halted, `run
      ensures Sound() && ParksFrozen() && old(run) <= run && (res.Ok? || reliable ==> !halted)
      ensures frozen ==> res == Err(Frozen) && entries == old(entries) && kernel == old(kernel)
      ensures entries - {p} == old(entries) - {p} && (calm ==> RowsKeptBut(old(kernel), kernel, p))
      ensures res.Err? && !halted ==> entries == old(entries) || (p in entries && entries[p].state != Active)
      ensures LostOnlyAt(p, id) && (Now().marks.ahead ==> old(Now()).marks.ahead)
      ensures res.Ok? ==> p in entries && var r := entries[p];
                          && r.zone == zone && r.source == source && r.toadGeneration == runtime.toadGeneration
                          && r.routeGeneration == routeGeneration && r.iface == runtime.iface && r.desired == id
      ensures var reserved := old(Reservation(p, zone, source, runtime.toadGeneration, routeGeneration, runtime.iface, id));
              && (res.Ok? ==> p in entries && entries[p] == Proven(reserved) && Exact(Rows(p), entries[p]) && disk == entries)
              && (calm && !Accepts(old(Rows(p)), reserved) ==> res.Err? && Rows(p) == old(Rows(p)))
              && (calm && reliable && !frozen ==> (res.Ok? <==> id.Valid(p) && Accepts(old(Rows(p)), reserved)))
    {
      if frozen {
        return Err(Frozen);
      }
      var reserved := ReserveDurably(p, zone, source, runtime, id);
      if reserved.Err? {
        return Err(reserved.error);
      }
      res := ReconcileRecord(p);
    }

    /** Retires p, and what that leaves of the work that the loop began in w0. */
    method RetireStep(p: Prefix, zone: string, clean: bool, ghost todo: set<Prefix>, ghost w0: Stores)
      returns (ok: bool)
      requires Settled() && p in todo && InZone(w0, zone, p)
      requires forall q :: FlushProgress(calm, zone, clean, todo, w0, World(), q)
      modifies `entries, `disk, `diskGeneration, `kernel, `halted, `run
      ensures Sound() && old(run) <= run && Now().marks.lost == old(Now()).marks.lost
      ensures (ok ==> clean && !halted) && (calm && reliable && clean ==> ok)
      ensures !halted ==> forall q :: FlushProgress(calm, zone, ok, todo - {p}, w0, World(), q)
    {
      assert FlushProgress(calm, zone, clean, todo, w0, World(), p);
      var retired := RetireRecord(p);
      ok := clean && retired;
      if !halted {
        FlushAdvances(calm, zone, clean, retired, ok, todo, p, w0, old(World()), World());
      }
    }

    method RetireZone(zone: string) returns (ok: bool)
      requires Settled()
      modifies `entries, `disk, `diskGeneration, `kernel, `halted, `run
      ensures Sound() && old(run) <= run && Now().marks.lost == old(Now()).marks.lost && (ok ==> !halted)
      ensures !halted ==> forall q :: FlushProgress(calm, zone, ok, {}, old(World()), World(), q)
      ensures calm && reliable ==> ok
    {
      ok := true;
      var todo := set q | q in entries && entries[q].zone == zone;
      while todo != {}
        invariant Settled() && old(run) <= run && Now().marks.lost == old(Now()).marks.lost
        invariant forall q <- todo :: InZone(old(World()), zone, q)
        invariant forall q :: FlushProgress(calm, zone, ok, todo, old(World()), World(), q)
        invariant calm && reliable ==> ok
        decreases |todo|
      {
        var p :| p in todo;
        ok := RetireStep(p, zone, ok, todo, old(World()));
        if halted {
          return false;
        }
        todo := todo - {p};
      }
    }

    /** Retires every intent of one zone, and goes on past the ones that fail. */
    method FlushZone(zone: string) returns (ok: bool)
      requires Settled()
      modifies `entries, `disk, `diskGeneration, `kernel, `halted, `run
      ensures Sound() && old(run) <= run && Now().marks.lost == old(Now()).marks.lost
      ensures !halted ==> forall q :: FlushProgress(calm, zone, ok, {}, old(World()), World(), q)
      ensures (ok ==> !halted && disk == entries) && (calm && reliable ==> ok)
      ensures old(ParksFrozen()) && !halted ==> ParksFrozen()
    {
      ok := RetireZone(zone);
      if !halted {
        FlushStartsNoPark(calm, zone, ok, old(World()), World());
        var stored := WriteCheckpoint(routeGeneration);
        ok := ok && stored;
      }
    }
  }
}
