/**
 The reconciliation planner: which same-prefix kernel rows a record accounts for, and what
 one reconciliation must do. The loop over a row list is proved to compute a specification
 over the multiset of rows, so the verdict does not depend on the order the kernel lists them.
 */
module Planner {
  import opened Identity
  import opened Records

  datatype Action = NoAction | Add | Replace

  datatype Conflict = ForeignRow | UnauthorizedPark | RecordRetiring | DuplicateDesired | MayNotAdopt | NotRegistered

  datatype Verdict = Accept(action: Action) | Reject(conflict: Conflict)

  /** Park rows are recognised by the persisted park transaction only. */
  predicate ParkRowAuthorized(id: ParkId, r: SelectedRoute) {
    r.park.Some? && r.park.value.Authorizes(id)
  }

  /** Route rows are the exact Desired or the exact previous Owned, whatever the state. */
  predicate RowRecognized(row: Row, r: SelectedRoute) {
    match row
    case Route(id) => id == r.desired || r.owned == Some(id)
    case Park(id) => ParkRowAuthorized(id, r)
    case Foreign(_) => false
  }

  function RowConflict(row: Row): Conflict {
    if row.Park? then UnauthorizedPark else ForeignRow
  }

  function StaleOwned(r: SelectedRoute): Option<Row> {
    if r.owned.Some? && r.owned.value != r.desired then Some(Route(r.owned.value)) else None
  }

  function DesiredCount(rows: multiset<Row>, r: SelectedRoute): nat {
    rows[Route(r.desired)]
  }

  function StaleCount(rows: multiset<Row>, r: SelectedRoute): nat {
    if StaleOwned(r).Some? then rows[StaleOwned(r).value] else 0
  }

  /** Every row is recognised, Desired is not duplicated, and an unproven row is adopted only while Applying. */
  predicate Acceptable(rows: multiset<Row>, r: SelectedRoute) {
    && r.state != Retiring
    && (forall row <- rows :: RowRecognized(row, r))
    && DesiredCount(rows, r) <= 1
    && (r.owned.None? && DesiredCount(rows, r) > 0 ==> r.state == Applying)
  }

  function ActionFor(rows: multiset<Row>, r: SelectedRoute): Action {
    if StaleCount(rows, r) > 0 then Replace
    else if DesiredCount(rows, r) == 0 then Add
    else NoAction
  }

  /** Acceptance for a kernel that holds no two identical rows. */
  predicate Accepts(rows: set<Row>, r: SelectedRoute) {
    && r.state != Retiring
    && (forall row <- rows :: RowRecognized(row, r))
    && (r.owned.None? && Route(r.desired) in rows ==> r.state == Applying)
  }

  function Plan(rows: set<Row>, r: SelectedRoute): Option<Action> {
    if !Accepts(rows, r) then None
    else if StaleOwned(r).Some? && StaleOwned(r).value in rows then Some(Replace)
    else if Route(r.desired) !in rows then Some(Add)
    else Some(NoAction)
  }

  /** On a kernel without duplicates the plan is the multiset verdict. */
  lemma PlanIsVerdict(rows: set<Row>, r: SelectedRoute)
    ensures Plan(rows, r) == if Acceptable(multiset(rows), r) then Some(ActionFor(multiset(rows), r)) else None
  {
  }

  /** The rows one reconciliation aims for: the stale Owned row replaced by the Desired row. */
  function Reconciled(rows: set<Row>, r: SelectedRoute): set<Row> {
    (if StaleOwned(r).Some? then rows - {StaleOwned(r).value} else rows) + {Route(r.desired)}
  }

  lemma ReconciledIsPlanned(rows: set<Row>, r: SelectedRoute)
    requires Accepts(rows, r) && r.state == Applying
    ensures Plan(Reconciled(rows, r), r) == Some(NoAction)
  {
  }

  /** The first row, in list order, that the record does not account for. */
  function FirstUnrecognized(rows: seq<Row>, r: SelectedRoute): Option<Row> {
    if rows == [] then None
    else if !RowRecognized(rows[0], r) then Some(rows[0])
    else FirstUnrecognized(rows[1..], r)
  }

  lemma {:induction false} FirstUnrecognizedAppend(rows: seq<Row>, row: Row, r: SelectedRoute)
    ensures FirstUnrecognized(rows + [row], r) ==
            if FirstUnrecognized(rows, r).Some? then FirstUnrecognized(rows, r)
            else if RowRecognized(row, r) then None else Some(row)
  {
    if rows == [] {
      assert (rows + [row])[1..] == [];
    } else {
      assert (rows + [row])[1..] == rows[1..] + [row];
      FirstUnrecognizedAppend(rows[1..], row, r);
    }
  }

  lemma {:induction false} UnrecognizedPersists(rows: seq<Row>, k: nat, r: SelectedRoute)
    requires k <= |rows| && FirstUnrecognized(rows[..k], r).Some?
    ensures FirstUnrecognized(rows, r) == FirstUnrecognized(rows[..k], r)
    decreases |rows| - k
  {
    if k == |rows| {
      assert rows[..k] == rows;
    } else {
      assert rows[..k + 1] == rows[..k] + [rows[k]];
      FirstUnrecognizedAppend(rows[..k], rows[k], r);
      UnrecognizedPersists(rows, k + 1, r);
    }
  }

  lemma {:induction false} FirstUnrecognizedIsMember(rows: seq<Row>, r: SelectedRoute)
    ensures FirstUnrecognized(rows, r).None? <==> forall row <- multiset(rows) :: RowRecognized(row, r)
    ensures FirstUnrecognized(rows, r).Some? ==>
              FirstUnrecognized(rows, r).value in rows && !RowRecognized(FirstUnrecognized(rows, r).value, r)
  {
    if rows != [] {
      FirstUnrecognizedIsMember(rows[1..], r);
      assert rows == [rows[0]] + rows[1..];
      assert multiset(rows) == multiset{rows[0]} + multiset(rows[1..]);
    }
  }

  /**
   Plans one reconciliation from a row list. The first two clauses fix acceptance and action by the
   multiset of rows; the last fixes which conflict is reported.
   */
  method PlanSelectedRoute(rows: seq<Row>, record: Option<SelectedRoute>) returns (v: Verdict)
    ensures record.None? ==> v == if rows == [] then Accept(Add) else Reject(NotRegistered)
    ensures record.Some? ==>
              v.Accept? == Acceptable(multiset(rows), record.value)
    ensures record.Some? && v.Accept? ==> v.action == ActionFor(multiset(rows), record.value)
    ensures record.Some? && v.Reject? ==>
              v.conflict ==
              if record.value.state == Retiring then RecordRetiring
              else if FirstUnrecognized(rows, record.value).Some? then
                RowConflict(FirstUnrecognized(rows, record.value).value)
              else if DesiredCount(multiset(rows), record.value) > 1 then DuplicateDesired
              else MayNotAdopt
  {
    if record.None? {
      return if rows == [] then Accept(Add) else Reject(NotRegistered);
    }
    var r := record.value;
    FirstUnrecognizedIsMember(rows, r);
    if r.state == Retiring {
      return Reject(RecordRetiring);
    }
    var desiredCount, ownedCount := 0, 0;
    for i := 0 to |rows|
      invariant FirstUnrecognized(rows[..i], r).None?
      invariant desiredCount == DesiredCount(multiset(rows[..i]), r)
      invariant ownedCount == StaleCount(multiset(rows[..i]), r)
    {
      var row := rows[i];
      assert rows[..i + 1] == rows[..i] + [row];
      FirstUnrecognizedAppend(rows[..i], row, r);
      var conflict := None;
      match row {
        case Foreign(_) => conflict := Some(ForeignRow);
        case Park(id) =>
          if !ParkRowAuthorized(id, r) {
            conflict := Some(UnauthorizedPark);
          }
        case Route(id) =>
          if id == r.desired {
            desiredCount := desiredCount + 1;
          } else if r.owned == Some(id) {
            ownedCount := ownedCount + 1;
          } else {
            conflict := Some(ForeignRow);
          }
      }
      if conflict.Some? {
        UnrecognizedPersists(rows, i + 1, r);
        return Reject(conflict.value);
      }
    }
    assert rows[..|rows|] == rows;
    if desiredCount > 1 {
      return Reject(DuplicateDesired);
    }
    if r.owned == None && ownedCount == 0 && desiredCount > 0 && r.state != Applying {
      return Reject(MayNotAdopt);
    }
    if desiredCount == 1 && ownedCount == 0 {
      return Accept(NoAction);
    } else if desiredCount == 0 && ownedCount == 0 {
      return Accept(Add);
    } else {
      return Accept(Replace);
    }
  }

  /** The rows after a successful reconciliation: every stale Owned row gone, exactly one Desired row. */
  function Executed(rows: multiset<Row>, r: SelectedRoute): multiset<Row> {
    var kept := if StaleOwned(r).Some? then rows[StaleOwned(r).value := 0] else rows;
    kept[Route(r.desired) := 1]
  }

  /**
   Executing an accepted plan reaches a fixed point, with parks untouched, exactly when the record may
   claim the row it just wrote: while Applying, or once it owns a previous row.
   */
  lemma PlanConverges(rows: multiset<Row>, r: SelectedRoute)
    requires Acceptable(rows, r)
    ensures forall row: Row :: row.Park? ==> Executed(rows, r)[row] == rows[row]
    ensures (Acceptable(Executed(rows, r), r) && ActionFor(Executed(rows, r), r) == NoAction)
            <==> r.state == Applying || r.owned.Some?
  {
  }

  /** A live row whose record was re-reserved to another identity is foreign to that record for ever. */
  lemma LostRowIsForeign(rows: multiset<Row>, r: SelectedRoute, id: RouteId)
    requires Route(id) in rows && id != r.desired && r.owned != Some(id)
    ensures !Acceptable(rows, r)
  {
  }
}
