/**
 The durable protocol of one prefix, as a transition system over three stores that a crash treats
 differently: the in-memory record, the checkpointed record and the kernel rows. Every kernel step
 carries the durable evidence it needs (write-ahead). The theorems hold for every run, with a crash
 allowed between any two steps.
 */
module Protocol {
  import opened Identity
  import opened Records

  /**
   What happened to the evidence so far. `lost`: the identities whose only record was dropped, by a
   re-reservation while they were in flight or by a crash, and that were not verified since. `ahead`: the
   kernel holds a row that memory names and the checkpoint does not yet. `parkLost`: the same as `lost` for
   parks taken off the record. `moved`: a re-reservation changed an identity in flight.
   */
  datatype Marks = Marks(lost: set<RouteId>, ahead: bool, parkLost: set<ParkId>, moved: bool)

  const CLEAN := Marks({}, false, {}, false)

  /** One prefix. `ours` and `parks` are the live rows that the controller created or verified. */
  datatype Cell = Cell(
    mem: Option<SelectedRoute>, disk: Option<SelectedRoute>, rows: set<Row>,
    ours: set<RouteId>, parks: set<ParkId>, marks: Marks)

  predicate Names(copy: Option<SelectedRoute>, id: RouteId) {
    copy.Some? && copy.value.Authorizes(id)
  }

  predicate NamesPark(copy: Option<SelectedRoute>, id: ParkId) {
    copy.Some? && copy.value.park.Some? && copy.value.park.value.Authorizes(id)
  }

  /** Memory is about to act under an identity that the checkpoint does not carry. */
  predicate Diverged(c: Cell) {
    c.mem.Some? && c.disk.Some? && c.mem.value.state == Applying && c.mem.value.desired != c.disk.value.desired
  }

  function RouteIds(rows: set<Row>): set<RouteId> {
    set row | row in rows && row.Route? :: row.route
  }

  function ParkIds(rows: set<Row>): set<ParkId> {
    set row | row in rows && row.Park? :: row.park
  }

  /** The rows of the identities that a record authorizes. */
  function RouteRows(r: SelectedRoute): set<Row> {
    (if r.owned.Some? then {Route(r.owned.value)} else {}) +
    (if r.Authorizes(r.desired) then {Route(r.desired)} else {})
  }

  function ParkRows(t: ParkTx): set<Row> {
    (if t.owned.Some? then {Park(t.owned.value)} else {}) +
    (if t.Authorizes(t.desired) then {Park(t.desired)} else {})
  }

  /** The rows that retiring a record deletes. A park that is still Pending is given up without a delete. */
  function Doomed(r: SelectedRoute): set<Row> {
    RouteRows(r) + (if r.park.Some? && r.park.value.state != ParkPending then ParkRows(r.park.value) else {})
  }

  /** Retirement takes away the rows of every identity that the record authorizes, except a park not yet authorized. */
  predicate Disowned(r: SelectedRoute, row: Row) {
    match row
    case Route(id) => r.Authorizes(id)
    case Park(id) => r.park.Some? && r.park.value.state != ParkPending && r.park.value.Authorizes(id)
    case Foreign(_) => false
  }

  lemma DoomedExactly(r: SelectedRoute, row: Row)
    ensures row in Doomed(r) <==> Disowned(r, row)
  {
  }

  // ----- steps on the in-memory record -----

  /** The transitions that keep every piece of evidence, whatever the kernel holds. */
  predicate PlainMove(r: SelectedRoute, r': SelectedRoute) {
    || r.MarkApplying() == Some(r')
    || r.MarkRetiring() == Some(r')
    || r.BeginRepair() == Some(r')
    || (r.state != Retiring && r.MarkParkApplying() == Some(r'))
    || (r.state != Retiring && r'.park.Some? && exists force ::
          r.ReservePark(r'.park.value.desired, force) == Some(r'))
  }

  lemma MoveKeepsForm(r: SelectedRoute, r': SelectedRoute)
    requires r.WellFormed() && PlainMove(r, r')
    ensures r'.WellFormed() && r'.prefix == r.prefix
  {
  }

  predicate IsReservation(m: Option<SelectedRoute>, r': SelectedRoute) {
    r'.desired.Valid(r'.prefix) &&
    match m
    case None => r' == FreshRecord(r'.role, r'.zone, r'.prefix, r'.source, r'.toadGeneration, r'.routeGeneration,
                                   r'.iface, r'.desired)
    case Some(r) => r' == r.Reserved(r'.zone, r'.source, r'.toadGeneration, r'.routeGeneration, r'.iface, r'.desired)
  }

  /** Proving a route forgets the previous Owned, so no other row of ours may be live. */
  predicate ActivateOk(c: Cell) {
    c.mem.Some? && c.disk.Some? && c.ours <= {c.mem.value.desired}
  }

  predicate ActivateParkOk(c: Cell) {
    && c.mem.Some? && c.disk.Some? && c.mem.value.park == c.disk.value.park
    && c.mem.value.park.Some? && c.parks <= {c.mem.value.park.value.desired}
    && c.mem.value.state != Retiring
  }

  /** A park is given up only for a retired record, an absent row, or a live selected row. */
  predicate GiveUpParkOk(c: Cell) {
    c.mem.Some? && (c.mem.value.state == Retiring || c.parks == {} || c.ours != {})
  }

  /** A park transaction is forgotten after proven absence, or when it was never authorized and is not needed. */
  predicate ClearParkOk(quiet: bool, c: Cell) {
    && c.mem.Some?
    && (c.mem.value.park.Some? ==>
          if c.mem.value.park.value.state == ParkPending then c.mem.value.state == Retiring
          else (quiet ==> ParkRows(c.mem.value.park.value) !! c.rows) && c.parks <= c.marks.parkLost)
  }

  /** Ownership is forgotten only when nothing of ours is left to own. */
  predicate ForgetOk(quiet: bool, c: Cell) {
    && c.mem.Some? && c.mem.value.state == Retiring && c.mem.value.park.None?
    && c.ours <= c.marks.lost
    && (quiet ==> RouteRows(c.mem.value) !! c.rows)
  }

  predicate ReserveStep(c: Cell, c': Cell) {
    && c'.mem.Some? && IsReservation(c.mem, c'.mem.value)
    && (c.mem.None? ==> c.disk.None?)
    && c' == c.(mem := c'.mem, marks := ReserveMarks(c, c'.mem.value.desired))
  }

  /** The identity in flight whose only record a re-reservation drops. */
  function Dropped(m: Option<SelectedRoute>, desired: RouteId): set<RouteId> {
    if m.Some? && LosesEvidence(m.value, desired) then {m.value.desired} else {}
  }

  function ReserveMarks(c: Cell, desired: RouteId): Marks {
    c.marks.(lost := c.marks.lost + Dropped(c.mem, desired),
             moved := c.marks.moved || (c.mem.Some? && RewritesInFlight(c.mem.value, desired)))
  }

  /** The park in flight that the move takes off the record. */
  function DroppedPark(r: SelectedRoute, r': SelectedRoute): set<ParkId> {
    if r.park.Some? && r'.park.Some? && r'.park.value.state == ParkPending && LosesPark(r.park.value)
    then {r.park.value.desired} else {}
  }

  predicate PlainStep(c: Cell, c': Cell) {
    && c.mem.Some? && c'.mem.Some? && PlainMove(c.mem.value, c'.mem.value)
    && c' == c.(mem := c'.mem,
                marks := c.marks.(parkLost := c.marks.parkLost + DroppedPark(c.mem.value, c'.mem.value)))
  }

  predicate ActivateStep(c: Cell, c': Cell) {
    && ActivateOk(c)
    && c.mem.value.MarkActive(c.mem.value.desired).Some?
    && c' == c.(mem := c.mem.value.MarkActive(c.mem.value.desired),
                ours := c.ours + ({c.mem.value.desired} * RouteIds(c.rows)),
                marks := ProofMarks(c, c.mem.value.desired))
  }

  /** Acting under an identity that the checkpoint does not name runs ahead of it. */
  function AheadMarks(c: Cell, id: RouteId): Marks {
    c.marks.(ahead := c.marks.ahead || !Names(c.disk, id))
  }

  /** A row that is verified is on record again. */
  function ProofMarks(c: Cell, id: RouteId): Marks {
    AheadMarks(c, id).(lost := c.marks.lost - {id})
  }

  function ParkProofMarks(c: Cell, id: ParkId): Marks {
    c.marks.(parkLost := c.marks.parkLost - {id})
  }

  predicate ActivateParkStep(c: Cell, c': Cell) {
    && ActivateParkOk(c)
    && c.mem.value.MarkParkActive(c.mem.value.park.value.desired).Some?
    && c' == c.(mem := c.mem.value.MarkParkActive(c.mem.value.park.value.desired),
                parks := c.parks + ({c.mem.value.park.value.desired} * ParkIds(c.rows)),
                marks := ParkProofMarks(c, c.mem.value.park.value.desired))
  }

  predicate RetireParkStep(quiet: bool, c: Cell, c': Cell) {
    && c.mem.Some? && c.mem.value.MarkParkRetiring().Some? && (quiet ==> GiveUpParkOk(c))
    && c' == c.(mem := c.mem.value.MarkParkRetiring())
  }

  predicate ClearParkStep(quiet: bool, c: Cell, c': Cell) {
    && ClearParkOk(quiet, c) && c.mem.value.ClearPark().Some?
    && c' == c.(mem := c.mem.value.ClearPark(), marks := ClearMarks(c))
  }

  /** A pending park is cleared without a delete, so an older park it still names is dropped. */
  function AbandonedPark(m: Option<SelectedRoute>): set<ParkId> {
    if m.Some? && m.value.park.Some? && m.value.park.value.state == ParkPending && m.value.park.value.owned.Some?
    then {m.value.park.value.owned.value} else {}
  }

  function ClearMarks(c: Cell): Marks {
    c.marks.(parkLost := c.marks.parkLost + AbandonedPark(c.mem))
  }

  predicate ForgetStep(quiet: bool, c: Cell, c': Cell) {
    ForgetOk(quiet, c) && c' == c.(mem := None)
  }

  predicate MemStep(quiet: bool, c: Cell, c': Cell) {
    || ReserveStep(c, c')
    || PlainStep(c, c')
    || ActivateStep(c, c')
    || ActivateParkStep(c, c')
    || RetireParkStep(quiet, c, c')
    || ClearParkStep(quiet, c, c')
    || ForgetStep(quiet, c, c')
  }

  // ----- steps on the kernel: each needs its durable evidence -----

  /** Both copies say Applying, and memory carries the identity about to be written. */
  predicate RouteWriteOk(c: Cell, id: RouteId) {
    && c.mem.Some? && c.disk.Some?
    && c.mem.value.state == Applying && c.disk.value.state == Applying
    && c.mem.value.desired == id && c.mem.value.owned == c.disk.value.owned
  }

  /** The checkpoint says Retiring, or an exact Active park is checkpointed and live. */
  predicate RouteDeleteOk(quiet: bool, c: Cell, id: RouteId) {
    && c.mem.Some? && c.disk.Some? && c.mem.value.park == c.disk.value.park
    && c.mem.value.Authorizes(id)
    && (c.disk.value.Authorizes(id) || (Diverged(c) && id == c.mem.value.desired))
    && (|| (c.mem.value.state == Retiring && c.disk.value.state == Retiring)
        || (c.disk.value.park.Some? && c.disk.value.park.value.state == ParkActive
            && (quiet ==> Park(c.disk.value.park.value.desired) in c.rows)))
  }

  predicate ParkWriteOk(c: Cell, id: ParkId) {
    && c.mem.Some? && c.disk.Some? && c.mem.value.park == c.disk.value.park && c.disk.value.state != Retiring
    && c.disk.value.park.Some? && c.disk.value.park.value.state == ParkApplying
    && c.disk.value.park.value.desired == id
  }

  /** A stale park goes only after its replacement is live. */
  predicate StaleParkDeleteOk(quiet: bool, c: Cell, id: ParkId) {
    && c.mem.Some? && c.disk.Some? && c.mem.value.park == c.disk.value.park && c.disk.value.state != Retiring
    && c.disk.value.park.Some? && c.disk.value.park.value.state == ParkApplying
    && c.disk.value.park.value.owned == Some(id) && id != c.disk.value.park.value.desired
    && (quiet ==> c.disk.value.park.value.desired in c.parks || c.ours != {})
  }

  /** The checkpoint says ParkRetiring, and something else still covers the prefix. */
  predicate ParkRetirable(quiet: bool, c: Cell) {
    && c.mem.Some? && c.disk.Some? && c.mem.value.park == c.disk.value.park
    && c.disk.value.park.Some? && c.disk.value.park.value.state == ParkRetiring
    && (quiet ==> c.disk.value.state == Retiring || c.parks == {} || c.ours != {})
  }

  predicate ParkDeleteOk(quiet: bool, c: Cell, id: ParkId) {
    ParkRetirable(quiet, c) && c.disk.value.park.value.Authorizes(id)
  }

  function WithRoute(c: Cell, id: RouteId): Cell {
    c.(rows := c.rows + {Route(id)}, ours := c.ours + {id}, marks := AheadMarks(c, id))
  }

  function WithoutRoute(c: Cell, id: RouteId): Cell {
    c.(rows := c.rows - {Route(id)}, ours := c.ours - {id})
  }

  function WithPark(c: Cell, id: ParkId): Cell {
    c.(rows := c.rows + {Park(id)}, parks := c.parks + {id})
  }

  function WithoutPark(c: Cell, id: ParkId): Cell {
    c.(rows := c.rows - {Park(id)}, parks := c.parks - {id})
  }

  ghost predicate WriteStep(c: Cell, c': Cell) {
    exists id :: RouteWriteOk(c, id) && c' == WithRoute(c, id)
  }

  /** One atomic replacement: the stale Owned row becomes the Desired row. */
  ghost predicate ReplaceStep(c: Cell, c': Cell) {
    exists id, stale :: RouteWriteOk(c, id) && stale != id && c.mem.value.owned == Some(stale)
                        && c' == WithRoute(WithoutRoute(c, stale), id)
  }

  ghost predicate DeleteStep(quiet: bool, c: Cell, c': Cell) {
    exists id :: RouteDeleteOk(quiet, c, id) && c' == WithoutRoute(c, id)
  }

  ghost predicate WriteParkStep(c: Cell, c': Cell) {
    exists id :: ParkWriteOk(c, id) && c' == WithPark(c, id)
  }

  ghost predicate DeleteParkStep(quiet: bool, c: Cell, c': Cell) {
    exists id :: (StaleParkDeleteOk(quiet, c, id) || ParkDeleteOk(quiet, c, id)) && c' == WithoutPark(c, id)
  }

  ghost predicate KernelStep(quiet: bool, c: Cell, c': Cell) {
    || WriteStep(c, c')
    || ReplaceStep(c, c')
    || DeleteStep(quiet, c, c')
    || WriteParkStep(c, c')
    || DeleteParkStep(quiet, c, c')
  }

  lemma ReplaceIsStep(quiet: bool, c: Cell, id: RouteId, stale: RouteId)
    requires RouteWriteOk(c, id) && stale != id && c.mem.value.owned == Some(stale)
    ensures KernelStep(quiet, c, WithRoute(WithoutRoute(c, stale), id))
  {
  }

  // ----- storage and environment -----

  function Stored(c: Cell): Cell {
    c.(disk := c.mem, marks := c.marks.(ahead := false))
  }

  predicate CheckpointStep(c: Cell, c': Cell) {
    c' == Stored(c)
  }

  /** Memory is gone; the restart reloads the checkpoint. What only memory named is lost. */
  function Crashed(c: Cell): Cell {
    c.(mem := c.disk, marks := c.marks.(lost := c.marks.lost + Unnamed(c), ahead := false))
  }

  /** The live rows of ours that the checkpoint does not name. */
  function Unnamed(c: Cell): set<RouteId> {
    set id | id in c.ours && !Names(c.disk, id)
  }

  predicate CrashStep(c: Cell, c': Cell) {
    c' == Crashed(c)
  }

  /** Anybody else edits the kernel rows. */
  predicate OutsideStep(c: Cell, c': Cell) {
    c' == c.(rows := c'.rows, ours := c.ours * RouteIds(c'.rows), parks := c.parks * ParkIds(c'.rows))
  }

  ghost predicate Next(quiet: bool, c: Cell, c': Cell) {
    || c == c'
    || MemStep(quiet, c, c')
    || KernelStep(quiet, c, c')
    || CheckpointStep(c, c')
    || CrashStep(c, c')
    || (!quiet && OutsideStep(c, c'))
  }

  predicate Initial(c: Cell) {
    c.mem == None && c.disk == None && c.ours == {} && c.parks == {} && c.marks == CLEAN
  }

  ghost predicate StepAt(quiet: bool, run: seq<Cell>, i: int) {
    0 < i < |run| ==> Next(quiet, run[i - 1], run[i])
  }

  ghost predicate IsRun(quiet: bool, run: seq<Cell>) {
    && run != []
    && Initial(run[0])
    && forall i :: StepAt(quiet, run, i)
  }

  // ----- the invariant -----

  /** What one copy of the record, in memory or on disk, guarantees about the kernel. */
  predicate RecordInv(quiet: bool, c: Cell, copy: Option<SelectedRoute>) {
    copy.Some? ==>
      var r := copy.value;
      && (r.state == Active ==> r.owned == Some(r.desired))
      && (r.state != Retiring ==> !r.retireDesired)
      && (r.park.Some? && r.park.value.state == ParkActive ==> r.park.value.owned == Some(r.park.value.desired))
      && (quiet && r.state == Active && Route(r.desired) in c.rows ==> r.desired in c.ours)
      && (quiet && r.park.Some? && r.park.value.state == ParkActive ==>
            && c.parks <= {r.park.value.desired}
            && (Park(r.park.value.desired) in c.rows ==> r.park.value.desired in c.parks))
      && (quiet && r.state != Retiring && r.park.Some? && r.park.value.state == ParkRetiring ==>
            c.parks == {} || c.ours != {})
  }

  /** The copy names every live selected row of ours that was not lost. */
  predicate Accounted(c: Cell, copy: Option<SelectedRoute>) {
    forall id <- c.ours :: id in c.marks.lost || Names(copy, id)
  }

  predicate ParksAccounted(c: Cell, copy: Option<SelectedRoute>) {
    forall id <- c.parks :: id in c.marks.parkLost || NamesPark(copy, id)
  }

  /** While retirement is durable, both copies agree on what is left to delete. */
  predicate RetireInv(quiet: bool, c: Cell) {
    quiet && !c.marks.moved && c.disk.Some? && c.disk.value.state == Retiring ==>
      if c.mem.None? then Doomed(c.disk.value) !! c.rows
      else
        && c.mem.value.state == Retiring
        && c.rows - Doomed(c.mem.value) == c.rows - Doomed(c.disk.value)
  }

  predicate Inv(quiet: bool, c: Cell) {
    && RetireInv(quiet, c)
    && (forall id <- c.ours :: Route(id) in c.rows)
    && (forall id <- c.parks :: Park(id) in c.rows)
    && Accounted(c, c.mem)
    && (!c.marks.ahead ==> Accounted(c, c.disk))
    && ParksAccounted(c, c.mem) && ParksAccounted(c, c.disk)
    && RecordInv(quiet, c, c.mem)
    && RecordInv(quiet, c, c.disk)
  }

  lemma ReserveKeepsInv(quiet: bool, c: Cell, c': Cell)
    requires Inv(quiet, c) && ReserveStep(c, c')
    ensures Inv(quiet, c')
  {
  }

  lemma RouteMoveKeepsInv(quiet: bool, c: Cell, c': Cell)
    requires Inv(quiet, c) && PlainStep(c, c') && c'.mem.value.park == c.mem.value.park
    ensures Inv(quiet, c')
  {
  }

  lemma ParkMoveKeepsInv(quiet: bool, c: Cell, c': Cell)
    requires Inv(quiet, c) && PlainStep(c, c') && c'.mem.value == c.mem.value.(park := c'.mem.value.park)
    ensures Inv(quiet, c')
  {
  }

  lemma PlainKeepsInv(quiet: bool, c: Cell, c': Cell)
    requires Inv(quiet, c) && PlainStep(c, c')
    ensures Inv(quiet, c')
  {
    if c'.mem.value.park == c.mem.value.park {
      RouteMoveKeepsInv(quiet, c, c');
    } else {
      ParkMoveKeepsInv(quiet, c, c');
    }
  }

  lemma ActivateKeepsInv(quiet: bool, c: Cell, c': Cell)
    requires Inv(quiet, c) && (ActivateStep(c, c') || ActivateParkStep(c, c'))
    ensures Inv(quiet, c')
  {
  }

  lemma GiveUpKeepsInv(quiet: bool, c: Cell, c': Cell)
    requires Inv(quiet, c) && (RetireParkStep(quiet, c, c') || ClearParkStep(quiet, c, c') || ForgetStep(quiet, c, c'))
    ensures Inv(quiet, c')
  {
  }

  lemma WriteKeepsInv(quiet: bool, c: Cell, c': Cell)
    requires Inv(quiet, c) && (WriteStep(c, c') || ReplaceStep(c, c'))
    ensures Inv(quiet, c')
  {
  }

  lemma DeleteKeepsInv(quiet: bool, c: Cell, c': Cell)
    requires Inv(quiet, c) && DeleteStep(quiet, c, c')
    ensures Inv(quiet, c')
  {
  }

  lemma ParkWriteKeepsInv(quiet: bool, c: Cell, c': Cell)
    requires Inv(quiet, c) && WriteParkStep(c, c')
    ensures Inv(quiet, c')
  {
  }

  lemma ParkDeleteKeepsInv(quiet: bool, c: Cell, c': Cell)
    requires Inv(quiet, c) && DeleteParkStep(quiet, c, c')
    ensures Inv(quiet, c')
  {
  }

  lemma StorageKeepsInv(quiet: bool, c: Cell, c': Cell)
    requires Inv(quiet, c) && (c == c' || CheckpointStep(c, c') || CrashStep(c, c') || (!quiet && OutsideStep(c, c')))
    ensures Inv(quiet, c')
  {
  }

  lemma MemStepKeepsInv(quiet: bool, c: Cell, c': Cell)
    requires Inv(quiet, c) && MemStep(quiet, c, c')
    ensures Inv(quiet, c')
  {
    if
    case ReserveStep(c, c') => ReserveKeepsInv(quiet, c, c');
    case PlainStep(c, c') => PlainKeepsInv(quiet, c, c');
    case ActivateStep(c, c') => ActivateKeepsInv(quiet, c, c');
    case ActivateParkStep(c, c') => ActivateKeepsInv(quiet, c, c');
    case RetireParkStep(quiet, c, c') => GiveUpKeepsInv(quiet, c, c');
    case ClearParkStep(quiet, c, c') => GiveUpKeepsInv(quiet, c, c');
    case ForgetStep(quiet, c, c') => GiveUpKeepsInv(quiet, c, c');
  }

  lemma KernelStepKeepsInv(quiet: bool, c: Cell, c': Cell)
    requires Inv(quiet, c) && KernelStep(quiet, c, c')
    ensures Inv(quiet, c')
  {
    if
    case WriteStep(c, c') => WriteKeepsInv(quiet, c, c');
    case ReplaceStep(c, c') => WriteKeepsInv(quiet, c, c');
    case DeleteStep(quiet, c, c') => DeleteKeepsInv(quiet, c, c');
    case WriteParkStep(c, c') => ParkWriteKeepsInv(quiet, c, c');
    case DeleteParkStep(quiet, c, c') => ParkDeleteKeepsInv(quiet, c, c');
  }

  lemma StepKeepsInv(quiet: bool, c: Cell, c': Cell)
    requires Inv(quiet, c) && Next(quiet, c, c')
    ensures Inv(quiet, c')
  {
    if
    case MemStep(quiet, c, c') => MemStepKeepsInv(quiet, c, c');
    case KernelStep(quiet, c, c') => KernelStepKeepsInv(quiet, c, c');
    case c == c' || CheckpointStep(c, c') || CrashStep(c, c') || (!quiet && OutsideStep(c, c')) =>
      StorageKeepsInv(quiet, c, c');
  }

  function Last(run: seq<Cell>): Cell
    requires run != []
  {
    run[|run| - 1]
  }

  lemma ExtendRun(quiet: bool, run: seq<Cell>, c: Cell)
    requires IsRun(quiet, run) && Next(quiet, Last(run), c)
    ensures IsRun(quiet, run + [c])
  {
    forall i
      ensures StepAt(quiet, run + [c], i)
    {
      assert StepAt(quiet, run, i);
    }
  }

  lemma {:induction false} RunInv(quiet: bool, run: seq<Cell>, k: nat)
    requires IsRun(quiet, run) && k < |run|
    ensures Inv(quiet, run[k])
  {
    if k > 0 {
      RunInv(quiet, run, k - 1);
      assert StepAt(quiet, run, k);
      StepKeepsInv(quiet, run[k - 1], run[k]);
    }
  }

  // ----- the theorems -----

  /**
   What is true of the two copies of a record whenever no transaction is in progress: they agree on the
   transaction phases and on all proven ownership, and on the identity of everything in flight.
   */
  predicate Quiescent(c: Cell) {
    && c.mem.Some? == c.disk.Some?
    && (c.mem.Some? ==>
          var m, d := c.mem.value, c.disk.value;
          && m.park == d.park && m.owned == d.owned && m.retireDesired == d.retireDesired
          && (m.state == Retiring <==> d.state == Retiring)
          && (m.state == Applying <==> d.state == Applying)
          && (m.state == Active ==> d.state == Active)
          && (m.state == Active || m.state == Retiring ==> m.desired == d.desired))
  }

  /**
   No orphan rows. In every run, with outside edits and a crash after any step, each live row that the
   controller created or verified is named by memory, and by the checkpoint unless a write ran ahead of it.
   The only exceptions are the identities that a re-reservation dropped while they were in flight, and those
   that the checkpoint did not name when the process died.
   */
  lemma NoOrphanRows(quiet: bool, run: seq<Cell>, k: nat, id: RouteId)
    requires IsRun(quiet, run) && k < |run| && id in run[k].ours && id !in run[k].marks.lost
    ensures Route(id) in run[k].rows && Names(run[k].mem, id)
    ensures !run[k].marks.ahead ==> Names(run[k].disk, id)
  {
    RunInv(quiet, run, k);
  }

  /** No orphan parks: every live park row of ours is named by both copies, unless this very park was dropped. */
  lemma NoOrphanParks(quiet: bool, run: seq<Cell>, k: nat, id: ParkId)
    requires IsRun(quiet, run) && k < |run| && id in run[k].parks && id !in run[k].marks.parkLost
    ensures Park(id) in run[k].rows && NamesPark(run[k].mem, id) && NamesPark(run[k].disk, id)
  {
    RunInv(quiet, run, k);
  }

  // ----- write-ahead -----

  /** The checkpoint licenses the appearance of this row. */
  predicate LicensedAdd(disk: Option<SelectedRoute>, row: Row) {
    disk.Some? &&
    match row
    case Route(id) => disk.value.state == Applying && disk.value.desired == id
    case Park(id) =>
      disk.value.park.Some? && disk.value.park.value.state == ParkApplying && disk.value.park.value.desired == id
    case Foreign(_) => false
  }

  /** The checkpoint licenses the disappearance of this row: by retirement, replacement or a proven park. */
  predicate LicensedRemove(disk: Option<SelectedRoute>, row: Row) {
    disk.Some? &&
    match row
    case Route(id) =>
      && disk.value.Authorizes(id)
      && (|| disk.value.state == Retiring
          || (disk.value.park.Some? && disk.value.park.value.state == ParkActive)
          || (disk.value.state == Applying && disk.value.owned == Some(id)))
    case Park(id) =>
      && disk.value.park.Some? && disk.value.park.value.Authorizes(id)
      && (|| disk.value.park.value.state == ParkRetiring
          || (disk.value.park.value.state == ParkApplying && id != disk.value.park.value.desired))
    case Foreign(_) => false
  }

  /** What a removal leaves: nothing in retirement, otherwise the replacement or the proven park. */
  predicate LeavesCover(disk: Option<SelectedRoute>, row: Row, after: set<Row>) {
    disk.Some? && (
      || disk.value.state == Retiring
      || (row.Park? && disk.value.park.Some? && disk.value.park.value.state == ParkRetiring)
      || (exists other <- after :: !other.Foreign?))
  }

  /** The one identity that may be ahead of the checkpoint. */
  predicate IsAhead(c: Cell, row: Row) {
    Diverged(c) && row == Route(c.mem.value.desired)
  }

  /**
   Write-ahead. In every run, with outside edits and crashes, each row that the controller itself adds or
   removes is licensed by the checkpoint of that moment, except under an identity re-reserved without one.
   */
  lemma WriteAhead(quiet: bool, run: seq<Cell>, k: nat, row: Row)
    requires IsRun(quiet, run) && k + 1 < |run| && KernelStep(quiet, run[k], run[k + 1]) && !IsAhead(run[k], row)
    ensures row in run[k + 1].rows && row !in run[k].rows ==> LicensedAdd(run[k].disk, row)
    ensures row in run[k].rows && row !in run[k + 1].rows ==> LicensedRemove(run[k].disk, row)
  {
  }

  /** The exception is exact: a route write is licensed if and only if its identity did not diverge. */
  lemma WriteIsLicensedExactly(c: Cell, id: RouteId)
    requires RouteWriteOk(c, id)
    ensures LicensedAdd(c.disk, Route(id)) <==> !Diverged(c)
  {
  }

  lemma RemovalLeavesCover(c: Cell, c': Cell, row: Row)
    requires Inv(true, c) && KernelStep(true, c, c') && row in c.rows && row !in c'.rows
    ensures LeavesCover(c.disk, row, c'.rows)
  {
    if
    case WriteStep(c, c') =>
    case WriteParkStep(c, c') =>
    case ReplaceStep(c, c') =>
      var id, stale :| RouteWriteOk(c, id) && c' == WithRoute(WithoutRoute(c, stale), id);
      assert Route(id) in c'.rows;
    case DeleteStep(true, c, c') =>
      if c.disk.value.state != Retiring {
        assert Park(c.disk.value.park.value.desired) in c'.rows;
      }
    case DeleteParkStep(true, c, c') =>
      var id :| (StaleParkDeleteOk(true, c, id) || ParkDeleteOk(true, c, id)) && c' == WithoutPark(c, id);
      if StaleParkDeleteOk(true, c, id) {
        if live :| live in c.ours {
          assert Route(live) in c'.rows;
        } else {
          assert Park(c.disk.value.park.value.desired) in c'.rows;
        }
      }
  }

  /** Without outside edits every change is the controller's, and a removal leaves something behind. */
  lemma QuietWriteAhead(run: seq<Cell>, k: nat, row: Row)
    requires IsRun(true, run) && k + 1 < |run| && !IsAhead(run[k], row)
    ensures row in run[k + 1].rows && row !in run[k].rows ==> LicensedAdd(run[k].disk, row)
    ensures row in run[k].rows && row !in run[k + 1].rows ==>
              LicensedRemove(run[k].disk, row) && LeavesCover(run[k].disk, row, run[k + 1].rows)
  {
    RunInv(true, run, k);
    assert StepAt(true, run, k + 1);
    if KernelStep(true, run[k], run[k + 1]) {
      WriteAhead(true, run, k, row);
      if row in run[k].rows && row !in run[k + 1].rows {
        RemovalLeavesCover(run[k], run[k + 1], row);
      }
    }
  }

  // ----- never bare -----

  predicate Covered(c: Cell) {
    c.ours != {} || c.parks != {}
  }

  predicate Registered(c: Cell) {
    c.disk.Some? && c.disk.value.state != Retiring
  }

  lemma KernelStepKeepsCover(c: Cell, c': Cell)
    requires Inv(true, c) && KernelStep(true, c, c') && Registered(c) && Covered(c)
    ensures Covered(c')
  {
    if
    case WriteStep(c, c') =>
    case ReplaceStep(c, c') =>
    case DeleteStep(true, c, c') =>
      assert c.disk.value.park.value.desired in c.parks;
    case WriteParkStep(c, c') =>
    case DeleteParkStep(true, c, c') =>
      var id :| (StaleParkDeleteOk(true, c, id) || ParkDeleteOk(true, c, id)) && c' == WithoutPark(c, id);
      if StaleParkDeleteOk(true, c, id) && c.ours == {} {
        assert c.disk.value.park.value.desired in c'.parks;
      }
  }

  lemma StepKeepsCover(c: Cell, c': Cell)
    requires Inv(true, c) && Next(true, c, c') && Registered(c) && Covered(c)
    ensures Covered(c')
  {
    if
    case KernelStep(true, c, c') => KernelStepKeepsCover(c, c');
    case MemStep(true, c, c') => assert c'.ours >= c.ours && c'.parks >= c.parks;
    case c == c' || CheckpointStep(c, c') || CrashStep(c, c') =>
  }

  /**
   Never bare. Without outside edits, once a registered prefix is covered by a selected row or a park row
   of the controller, it stays covered after every later step, crashes included, for as long as its
   retirement is not durable.
   */
  lemma {:induction false} NeverBare(run: seq<Cell>, i: nat, j: nat)
    requires IsRun(true, run) && i <= j < |run|
    requires forall k :: i <= k <= j ==> Registered(run[k])
    requires Covered(run[i])
    ensures Covered(run[j])
    decreases j
  {
    if i < j {
      NeverBare(run, i, j - 1);
      RunInv(true, run, j - 1);
      assert StepAt(true, run, j);
      StepKeepsCover(run[j - 1], run[j]);
    }
  }

  /** The rows that a retirement still to be completed ends with. */
  function RetireTarget(c: Cell): set<Row> {
    if c.disk.None? then c.rows else c.rows - Doomed(c.disk.value)
  }

  lemma StepKeepsTarget(c: Cell, c': Cell)
    requires Inv(true, c) && Next(true, c, c') && !c'.marks.moved
    requires c.disk.Some? && c.disk.value.state == Retiring
    ensures RetireTarget(c') == RetireTarget(c)
  {
    if
    case KernelStep(true, c, c') =>
      if DeleteStep(true, c, c') {
        var id :| RouteDeleteOk(true, c, id) && c' == WithoutRoute(c, id);
        assert Route(id) in Doomed(c.disk.value);
      } else if DeleteParkStep(true, c, c') {
        var id :| ParkDeleteOk(true, c, id) && c' == WithoutPark(c, id);
        assert Park(id) in Doomed(c.disk.value);
      }
    case MemStep(true, c, c') => assert c'.rows == c.rows && c'.disk == c.disk;
    case c == c' || CheckpointStep(c, c') || CrashStep(c, c') =>
  }

  lemma MovedIsForever(c: Cell, c': Cell)
    requires Next(true, c, c') && c.marks.moved
    ensures c'.marks.moved
  {
  }

  /**
   Retirement is confluent. However often a durable retirement is interrupted and resumed, the rows it is
   heading for never change, and if the record is gone then exactly those rows are left.
   */
  lemma {:induction false} RetirementConfluent(run: seq<Cell>, i: nat, j: nat)
    requires IsRun(true, run) && i <= j < |run| && !run[j].marks.moved
    requires forall k :: i <= k < j ==> run[k].disk.Some? && run[k].disk.value.state == Retiring
    ensures RetireTarget(run[j]) == RetireTarget(run[i])
    ensures run[j].disk.None? ==> run[j].rows == RetireTarget(run[i])
    decreases j
  {
    if i < j {
      assert StepAt(true, run, j);
      if run[j - 1].marks.moved {
        MovedIsForever(run[j - 1], run[j]);
      }
      RetirementConfluent(run, i, j - 1);
      RunInv(true, run, j - 1);
      StepKeepsTarget(run[j - 1], run[j]);
    }
  }

  // ----- the exceptions are real -----

  /**
   Re-reserving a durable Applying record to another identity, after its row was written, leaves a live row
   that neither copy of the record names.
   */
  lemma OrphanAfterChangedReserve(role: string, zone: string, p: Prefix, d1: RouteId, d2: RouteId)
    returns (run: seq<Cell>)
    requires d1.Valid(p) && d2.Valid(p) && d1 != d2
    ensures IsRun(true, run)
    ensures var last := Last(run);
            d1 in last.ours && last.mem == last.disk && last.disk.Some? && !Names(last.disk, d1)
  {
    var c0 := Cell(None, None, {}, {}, {}, CLEAN);
    var r := FreshRecord(role, zone, p, Static, 1, 1, "", d1);
    var c1 := c0.(mem := Some(r));
    var a := r.(state := Applying);
    var c2 := c1.(mem := Some(a));
    var c3 := c2.(disk := Some(a));
    assert RouteWriteOk(c3, d1);
    var c4 := WithRoute(c3, d1);
    var b := a.Reserved(zone, Static, 1, 1, "", d2);
    var c5 := c4.(mem := Some(b), marks := CLEAN.(lost := {d1}, moved := true));
    var c6 := c5.(disk := Some(b));
    assert ReserveStep(c0, c1) && PlainStep(c1, c2) && CheckpointStep(c2, c3);
    assert WriteStep(c3, c4) && ReserveStep(c4, c5) && CheckpointStep(c5, c6);
    run := [c0, c1, c2, c3, c4, c5, c6];
  }

  /** A run up to a proven, checkpointed Active record with its row. */
  lemma ProvenRun(role: string, zone: string, p: Prefix, d: RouteId) returns (run: seq<Cell>)
    requires d.Valid(p)
    ensures IsRun(true, run)
    ensures var r := FreshRecord(role, zone, p, Static, 1, 1, "", d).(state := Active, owned := Some(d));
            Last(run) == Cell(Some(r), Some(r), {Route(d)}, {d}, {}, CLEAN)
  {
    var c0 := Cell(None, None, {}, {}, {}, CLEAN);
    var r := FreshRecord(role, zone, p, Static, 1, 1, "", d);
    var c1 := c0.(mem := Some(r));
    var a := r.(state := Applying);
    var c2 := c1.(mem := Some(a));
    var c3 := c2.(disk := Some(a));
    assert RouteWriteOk(c3, d);
    var c4 := WithRoute(c3, d);
    var proven := r.(state := Active, owned := Some(d));
    var c5 := c4.(mem := Some(proven));
    var c6 := c5.(disk := Some(proven));
    assert ReserveStep(c0, c1) && PlainStep(c1, c2) && CheckpointStep(c2, c3);
    assert WriteStep(c3, c4) && ActivateStep(c4, c5) && CheckpointStep(c5, c6);
    run := [c0, c1, c2, c3, c4, c5, c6];
  }

  /**
   A restoration re-reserves without a checkpoint, and an Applying record goes straight to the kernel write.
   Although the re-reservation keeps all evidence, a crash right after the write leaves a row that the
   restarted controller does not know.
   */
  lemma OrphanAfterUnloggedWrite(role: string, zone: string, p: Prefix, d1: RouteId, d2: RouteId)
    returns (run: seq<Cell>, k: nat)
    requires d1.Valid(p) && d2.Valid(p) && d1 != d2
    ensures IsRun(true, run) && k < |run| && run[k].mem.Some? && !LosesEvidence(run[k].mem.value, d2)
    ensures k + 1 < |run| && ReserveStep(run[k], run[k + 1]) && run[k + 1].marks.lost == {}
    ensures var last := Last(run);
            d2 in last.ours && last.mem == last.disk && last.disk.Some? && !Names(last.disk, d2)
  {
    run := ProvenRun(role, zone, p, d1);
    var r := Last(run).mem.value;
    var a := r.(state := Applying);
    run := ThenMove(run, r.(state := Pending));
    run := ThenMove(run, a);
    run := ThenCheckpoint(run);
    k := |run| - 1;
    var reserved := Last(run).(mem := Some(a.Reserved(zone, Static, 1, 1, "", d2)), marks := CLEAN.(moved := true));
    assert ReserveStep(Last(run), reserved);
    run := Then(true, run, reserved);
    assert RouteWriteOk(reserved, d2) && WriteStep(reserved, WithRoute(reserved, d2));
    run := Then(true, run, WithRoute(reserved, d2));
    run := Then(true, run, Last(run).(mem := Some(a), marks := CLEAN.(moved := true, lost := {d2})));
  }

  /** A re-reserved park that is still Pending when its record retires is cleared without deleting the old row. */
  lemma OrphanParkAfterRetirement(role: string, zone: string, p: Prefix, d: RouteId, x: ParkId, y: ParkId)
    returns (run: seq<Cell>)
    requires d.Valid(p) && x.Valid(p) && y.Valid(p) && x != y
    ensures IsRun(true, run)
    ensures Last(run).mem == None && Last(run).disk == None && x in Last(run).parks && Park(x) in Last(run).rows
  {
    var r;
    run, r := ParkedRun(role, zone, p, d, x);
    ReserveParkIsMove(r, y);
    var again := r.(park := Some(ParkTx(ParkPending, y, Some(x), false)));
    run := ThenMove(run, again);
    run := ThenMove(run, again.(state := Retiring));
    run := ThenCheckpoint(run);
    run := AbandonRun(run, again.(state := Retiring), x);
  }

  /** A retiring record whose Pending park still owns x is forgotten, and x stays. */
  lemma AbandonRun(retiring: seq<Cell>, r: SelectedRoute, x: ParkId) returns (run: seq<Cell>)
    requires IsRun(true, retiring) && r.state == Retiring && r.park.Some? && r.owned.None? && !r.retireDesired
    requires r.park.value.state == ParkPending && r.park.value.owned == Some(x)
    requires Last(retiring) == Cell(Some(r), Some(r), {Park(x)}, {}, {x}, CLEAN)
    ensures IsRun(true, run) && Last(run) == Cell(None, None, {Park(x)}, {}, {x}, CLEAN.(parkLost := {x}))
  {
    var cleared := Last(retiring).(mem := Some(r.(park := None)), marks := CLEAN.(parkLost := {x}));
    assert ClearParkStep(true, Last(retiring), cleared);
    run := Then(true, retiring, cleared);
    run := ThenCheckpoint(run);
    assert ForgetStep(true, Last(run), Last(run).(mem := None));
    run := Then(true, run, Last(run).(mem := None));
    run := ThenCheckpoint(run);
  }

  /** A run up to a Pending record whose park is durably authorized. */
  lemma AuthorizedRun(bare: SelectedRoute, x: ParkId) returns (run: seq<Cell>)
    requires bare.desired.Valid(bare.prefix) && x.Valid(bare.prefix)
    requires bare == FreshRecord(bare.role, bare.zone, bare.prefix, Static, 1, 1, "", bare.desired)
    ensures IsRun(true, run)
    ensures var r := bare.(park := Some(ParkTx(ParkApplying, x, None, false)));
            Last(run) == Cell(Some(r), Some(r), {}, {}, {}, CLEAN)
  {
    var c0 := Cell(None, None, {}, {}, {}, CLEAN);
    assert ReserveStep(c0, c0.(mem := Some(bare)));
    run := [c0, c0.(mem := Some(bare))];
    ReserveParkIsMove(bare, x);
    run := ThenMove(run, bare.(park := Some(ParkTx(ParkPending, x, None, false))));
    run := ThenMove(run, bare.(park := Some(ParkTx(ParkApplying, x, None, false))));
    run := ThenCheckpoint(run);
  }

  /** A run up to a Pending record with a proven, checkpointed park. */
  lemma ParkedRun(role: string, zone: string, p: Prefix, d: RouteId, x: ParkId)
    returns (run: seq<Cell>, r: SelectedRoute)
    requires d.Valid(p) && x.Valid(p)
    ensures IsRun(true, run)
    ensures r == FreshRecord(role, zone, p, Static, 1, 1, "", d).(park := Some(ParkTx(ParkActive, x, Some(x), false)))
    ensures Last(run) == Cell(Some(r), Some(r), {Park(x)}, {}, {x}, CLEAN)
  {
    var bare := FreshRecord(role, zone, p, Static, 1, 1, "", d);
    run := AuthorizedRun(bare, x);
    run, r := ProveParkRun(run, bare, x);
  }

  lemma ProveParkRun(authorized: seq<Cell>, bare: SelectedRoute, x: ParkId) returns (run: seq<Cell>, r: SelectedRoute)
    requires IsRun(true, authorized) && bare.state == Pending
    requires var r := bare.(park := Some(ParkTx(ParkApplying, x, None, false)));
             Last(authorized) == Cell(Some(r), Some(r), {}, {}, {}, CLEAN)
    ensures IsRun(true, run) && r == bare.(park := Some(ParkTx(ParkActive, x, Some(x), false)))
    ensures Last(run) == Cell(Some(r), Some(r), {Park(x)}, {}, {x}, CLEAN)
  {
    var c := Last(authorized);
    assert ParkWriteOk(c, x) && WriteParkStep(c, WithPark(c, x));
    run := Then(true, authorized, WithPark(c, x));
    r := bare.(park := Some(ParkTx(ParkActive, x, Some(x), false)));
    assert ActivateParkStep(Last(run), Last(run).(mem := Some(r)));
    run := Then(true, run, Last(run).(mem := Some(r)));
    run := ThenCheckpoint(run);
  }

  lemma Then(quiet: bool, run: seq<Cell>, c: Cell) returns (longer: seq<Cell>)
    requires IsRun(quiet, run) && Next(quiet, Last(run), c)
    ensures longer == run + [c] && IsRun(quiet, longer) && Last(longer) == c
  {
    ExtendRun(quiet, run, c);
    longer := run + [c];
  }

  /** A move of the record, seen as a step. */
  lemma ThenMove(run: seq<Cell>, r': SelectedRoute) returns (longer: seq<Cell>)
    requires IsRun(true, run) && Last(run).mem.Some? && PlainMove(Last(run).mem.value, r')
    requires DroppedPark(Last(run).mem.value, r') == {}
    ensures longer == run + [Last(run).(mem := Some(r'))] && IsRun(true, longer)
  {
    var c := Last(run).(mem := Some(r'));
    assert PlainStep(Last(run), c);
    longer := Then(true, run, c);
  }

  lemma ThenCheckpoint(run: seq<Cell>) returns (longer: seq<Cell>)
    requires IsRun(true, run) && !Last(run).marks.ahead
    ensures longer == run + [Last(run).(disk := Last(run).mem)] && IsRun(true, longer)
  {
    longer := Then(true, run, Last(run).(disk := Last(run).mem));
  }

  lemma ReserveParkIsMove(r: SelectedRoute, x: ParkId)
    requires r.state != Retiring && x.Valid(r.prefix) && (r.park.None? || r.park.value.desired != x)
    ensures PlainMove(r, r.(park := Some(ParkTx(ParkPending, x, if r.park.Some? then r.park.value.owned else None, false))))
  {
    assert r.ReservePark(x, false).Some?;
  }
}
