/**
 Truth of the zero-I/O fast path. A token is truthful when the kernel holds exactly the row it names, or
 when an event that will clear it is still to be processed. The lemmas say which steps keep that.
 */
module FastPath {
  import opened Identity
  import opened Records
  import opened Planner
  import opened Stages
  import opened Observation

  /** Tokens, the processed sequence, and the lossless in-order stream of events still in the channel. */
  datatype View = View(tokens: map<Prefix, Token>, processed: nat, sequence: nat, queue: seq<Event>)

  datatype Role = Role(stores: Stores, generation: nat, frozen: bool)

  datatype State = State(view: View, role: Role)

  /** The channel holds the newest events, numbered without gaps. */
  ghost predicate InOrder(v: View) {
    && v.processed <= v.sequence && |v.queue| <= v.sequence
    && forall i | 0 <= i < |v.queue| :: v.queue[i].sequence == v.sequence - |v.queue| + 1 + i
  }

  /** The token of q could be the answer: it names the proven Desired of this generation. */
  predicate Live(s: State, q: Prefix) {
    && !s.role.frozen && q in s.view.tokens && q in s.role.stores.entries
    && s.role.stores.entries[q].state == Active
    && s.role.stores.entries[q].desired == s.view.tokens[q].identity
    && s.view.tokens[q].routeGeneration == s.role.generation
  }

  /** An event newer than `floor` that would clear a token of q with this identity is in the channel. */
  predicate Awaited(v: View, floor: nat, q: Prefix, id: RouteId) {
    exists e <- v.queue :: e.sequence > floor && Clears(e.scope, q, id)
  }

  /** The kernel holds exactly the row of the token, or the token is about to be cleared. */
  predicate Holds(s: State, floor: nat, q: Prefix, id: RouteId) {
    s.role.stores.Rows(q) == {Route(id)} || Awaited(s.view, floor, q, id)
  }

  predicate Truthful(s: State, floor: nat, q: Prefix) {
    Live(s, q) ==> Holds(s, floor, q, s.view.tokens[q].identity)
  }

  /** Every token but those in doubt is truthful. */
  ghost predicate AllTruthful(s: State, floor: nat, doubt: set<Prefix>) {
    forall q :: q in doubt || Truthful(s, floor, q)
  }

  /** With no event outstanding, a live token names the only kernel row of its prefix. */
  lemma AnswerIsExact(s: State, doubt: set<Prefix>, q: Prefix)
    requires InOrder(s.view) && AllTruthful(s, s.view.processed, doubt) && q !in doubt
    requires Live(s, q) && s.view.processed == s.view.sequence
    ensures s.role.stores.Rows(q) == {Route(s.view.tokens[q].identity)}
  {
    assert Truthful(s, s.view.processed, q);
    if e :| e in s.view.queue && e.sequence > s.view.processed {
      assert false;
    }
  }

  // ----- the observer -----

  /** The event accounts for a change of the rows of q. A link event stands for deletions on that link. */
  predicate Explains(scope: Scope, rows: set<Row>, rows': set<Row>, q: Prefix) {
    match scope
    case OnePrefix(p) => p == q
    case OneInterface(i) => rows' <= rows && forall row <- rows - rows' :: row.Route? ==> row.route.ifIndex == i
    case Everything => true
  }

  /** The observer is lossless: a change of the rows of q is accounted for by one of the events. */
  predicate ExplainedBy(events: seq<Event>, rows: set<Row>, rows': set<Row>, q: Prefix) {
    rows == rows' || exists e <- events :: Explains(e.scope, rows, rows', q)
  }

  /** One of the events would clear a token of q with this identity. */
  predicate ClearedBy(events: seq<Event>, q: Prefix, id: RouteId) {
    exists e <- events :: Clears(e.scope, q, id)
  }

  lemma ExplainedIsCleared(events: seq<Event>, id: RouteId, rows': set<Row>, q: Prefix)
    requires ExplainedBy(events, {Route(id)}, rows', q) && rows' != {Route(id)}
    ensures ClearedBy(events, q, id)
  {
    var e :| e in events && Explains(e.scope, {Route(id)}, rows', q);
    if e.scope.OneInterface? {
      assert Route(id) in {Route(id)} - rows';
    }
  }

  // ----- steps that only raise events -----

  /** If q had exactly one row, it still has, or an event raised since `floor` will clear a token for it. */
  ghost predicate Explained(v': View, floor: nat, rows: set<Row>, rows': set<Row>, q: Prefix) {
    forall id :: rows == {Route(id)} ==> rows' == rows || Awaited(v', floor, q, id)
  }

  predicate Raises(v: View, v': View) {
    v'.processed == v.processed && v.queue <= v'.queue && v'.sequence - v.sequence == |v'.queue| - |v.queue|
  }

  lemma NewEvent(v: View, v': View, e: Event)
    requires InOrder(v) && InOrder(v') && Raises(v, v') && e in v'.queue[|v.queue|..]
    ensures e in v'.queue && v.sequence < e.sequence <= v'.sequence
  {
    var i :| 0 <= i < |v'.queue[|v.queue|..]| && v'.queue[|v.queue|..][i] == e;
    assert v'.queue[|v.queue| + i] == e;
  }

  /** Record and token of q are untouched. */
  predicate Untouched(s: State, s': State, q: Prefix) {
    && Lookup(s'.role.stores.entries, q) == Lookup(s.role.stores.entries, q)
    && (q in s'.view.tokens ==> q in s.view.tokens && s'.view.tokens[q] == s.view.tokens[q])
    && s'.role.generation == s.role.generation && (s.role.frozen ==> s'.role.frozen)
  }

  /** Whatever the step did to q, its token is dead, or exact but for events raised during the step. */
  predicate Renewed(s: State, s': State, q: Prefix) {
    Live(s', q) ==> Holds(s', s.view.sequence, q, s'.view.tokens[q].identity)
  }

  ghost predicate StepFor(s: State, s': State, q: Prefix) {
    && Explained(s'.view, s.view.sequence, s.role.stores.Rows(q), s'.role.stores.Rows(q), q)
    && (Untouched(s, s', q) || Renewed(s, s', q))
  }

  /** A whole call, with the events the observer raised meanwhile. */
  ghost predicate AtomicStep(s: State, s': State) {
    Raises(s.view, s'.view) && forall q :: StepFor(s, s', q)
  }

  lemma HoldsOn(s: State, s': State, floor: nat, q: Prefix, id: RouteId)
    requires Raises(s.view, s'.view) && floor <= s.view.sequence && Holds(s, floor, q, id)
    requires Explained(s'.view, s.view.sequence, s.role.stores.Rows(q), s'.role.stores.Rows(q), q)
    ensures Holds(s', floor, q, id)
  {
  }

  lemma StepKeepsTruth(s: State, s': State, floor: nat, doubt: set<Prefix>)
    requires AtomicStep(s, s') && floor <= s.view.sequence && AllTruthful(s, floor, doubt)
    ensures AllTruthful(s', floor, doubt)
  {
    forall q
      ensures q in doubt || Truthful(s', floor, q)
    {
      assert StepFor(s, s', q) && (q in doubt || Truthful(s, floor, q));
      if q !in doubt && Live(s', q) && !Renewed(s, s', q) {
        HoldsOn(s, s', floor, q, s.view.tokens[q].identity);
      }
    }
  }

  /** Two calls in a row, or a call in two parts, are one step. */
  lemma StepsCompose(s: State, s': State, s'': State)
    requires AtomicStep(s, s') && AtomicStep(s', s'')
    ensures AtomicStep(s, s'')
  {
    forall q
      ensures StepFor(s, s'', q)
    {
      assert StepFor(s, s', q) && StepFor(s', s'', q);
      RowsCompose(s, s', s'', q);
      if Live(s'', q) && Renewed(s, s', q) && Untouched(s', s'', q) {
        HoldsOn(s', s'', s.view.sequence, q, s'.view.tokens[q].identity);
      }
    }
  }

  lemma RowsCompose(s: State, s': State, s'': State, q: Prefix)
    requires Raises(s.view, s'.view) && Raises(s'.view, s''.view) && StepFor(s, s', q) && StepFor(s', s'', q)
    ensures Explained(s''.view, s.view.sequence, s.role.stores.Rows(q), s''.role.stores.Rows(q), q)
  {
    forall id | s.role.stores.Rows(q) == {Route(id)}
      ensures Holds(s'', s.view.sequence, q, id)
    {
      HoldsOn(s, s', s.view.sequence, q, id);
      HoldsOn(s', s'', s.view.sequence, q, id);
    }
  }

  // ----- minting late -----

  /** A call on the prefix has read its row back; these events arrived since, and its token is still to be stored. */
  datatype Reading = Reading(prefix: Prefix, arrived: seq<Event>)

  function Extended(open: Option<Reading>, events: seq<Event>): Option<Reading> {
    if open.None? then None else Some(open.value.(arrived := open.value.arrived + events))
  }

  /** An event that came after the read-back clears the token, and none that does is still to be processed. */
  predicate Overtaken(v: View, arrived: seq<Event>, p: Prefix, id: RouteId) {
    ClearedBy(arrived, p, id) && !Awaited(v, v.processed, p, id)
  }

  /** Storing the token for the row id is sound if these are the rows now. */
  predicate MayMint(v: View, arrived: seq<Event>, p: Prefix, id: RouteId, rows: set<Row>) {
    ExplainedBy(arrived, {Route(id)}, rows, p) ==> rows == {Route(id)} || Awaited(v, v.processed, p, id)
  }

  /**
   A token stored some time after the read-back is truthful, whatever the kernel holds by now, if and only if
   the token was not overtaken: an event since the read-back that clears it must still be to be processed.
   The controller has seen these events, so it could tell.
   */
  lemma MintIsSoundExactly(v: View, arrived: seq<Event>, p: Prefix, id: RouteId)
    ensures (forall rows :: MayMint(v, arrived, p, id, rows)) <==> !Overtaken(v, arrived, p, id)
  {
    if Overtaken(v, arrived, p, id) {
      var e :| e in arrived && Clears(e.scope, p, id);
      assert Explains(e.scope, {Route(id)}, {}, p);
      assert !MayMint(v, arrived, p, id, {});
    } else {
      forall rows
        ensures MayMint(v, arrived, p, id, rows)
      {
        if ExplainedBy(arrived, {Route(id)}, rows, p) && rows != {Route(id)} {
          ExplainedIsCleared(arrived, id, rows, p);
        }
      }
    }
  }

  /** A token that is stored before any event is processed was not overtaken. */
  lemma NotOvertaken(v: View, v': View, p: Prefix, id: RouteId)
    requires InOrder(v) && InOrder(v') && Raises(v, v')
    ensures !Overtaken(v', v'.queue[|v.queue|..], p, id)
  {
    var arrived := v'.queue[|v.queue|..];
    if e :| e in arrived && Clears(e.scope, p, id) {
      NewEvent(v, v', e);
    }
  }

  /** Only the token of p is stored. */
  predicate Mints(s: State, s': State, p: Prefix) {
    s'.role == s.role && p in s'.view.tokens && s'.view == s.view.(tokens := s.view.tokens[p := s'.view.tokens[p]])
  }

  /** Storing the token for a row that was exact before some edits is one step with these edits. */
  lemma MintEnds(s: State, s': State, s'': State, p: Prefix)
    requires AtomicStep(s, s') && Mints(s', s'', p)
    requires Live(s'', p) ==> s.role.stores.Rows(p) == {Route(s''.view.tokens[p].identity)}
    ensures AtomicStep(s, s'')
  {
    forall q
      ensures StepFor(s, s'', q)
    {
      assert StepFor(s, s', q);
    }
  }

  // ----- processing a batch of events -----

  /** Takes the first n events off the channel and clears what their fold clears. */
  function Dequeued(v: View, n: nat): View
    requires 0 < n <= |v.queue|
  {
    var batch := Fold(v.queue[0], v.queue[1..n]);
    v.(queue := v.queue[n..],
       tokens := map q | q in v.tokens && !Clears(batch.scope, q, v.tokens[q].identity) :: v.tokens[q])
  }

  /** All the first n events have the same scope. */
  predicate IsUniform(queue: seq<Event>, n: nat)
    requires 0 < n <= |queue|
  {
    forall i | 0 <= i < n :: queue[i].scope == queue[0].scope
  }

  /** No event is missing in the channel, so an event follows the ones before it if it has their scope. */
  lemma FollowsByScope(v: View, n: nat, i: nat)
    requires InOrder(v) && 0 < n <= |v.queue| && i + 1 < n
    ensures Follows(v.queue[0], v.queue[1..n], i) <==> v.queue[i + 1].scope == v.queue[0].scope
  {
    var rest := v.queue[1..n];
    var newest := Newest(v.queue[0], rest[..i]);
    assert newest >= v.queue[i].sequence by {
      if i > 0 {
        assert rest[i - 1] == v.queue[i] && rest[..i][i - 1] == rest[i - 1];
      }
    }
    assert rest[i] == v.queue[i + 1];
  }

  /** The batch keeps the scope of its events if they share it, and otherwise stands for everything. */
  lemma BatchScope(v: View, n: nat)
    requires InOrder(v) && 0 < n <= |v.queue|
    ensures Fold(v.queue[0], v.queue[1..n]).scope == if IsUniform(v.queue, n) then v.queue[0].scope else Everything
  {
    var first, rest := v.queue[0], v.queue[1..n];
    forall i | 0 <= i < |rest|
      ensures Follows(first, rest, i) <==> v.queue[i + 1].scope == first.scope
    {
      FollowsByScope(v, n, i);
    }
    assert AllFollow(first, rest) <==> IsUniform(v.queue, n) by {
      if AllFollow(first, rest) {
        forall i | 0 < i < n
          ensures v.queue[i].scope == first.scope
        {
          assert Follows(first, rest, i - 1);
        }
      }
    }
    FoldIsExact(first, rest);
  }

  lemma BatchSequence(v: View, n: nat)
    requires InOrder(v) && 0 < n <= |v.queue|
    ensures Fold(v.queue[0], v.queue[1..n]).sequence == v.queue[n - 1].sequence <= v.sequence
  {
    var rest := v.queue[1..n];
    FoldIsExact(v.queue[0], rest);
    forall e <- rest
      ensures e.sequence <= v.queue[n - 1].sequence
    {
      var i :| 0 <= i < |rest| && rest[i] == e;
      assert e == v.queue[i + 1];
    }
    assert n > 1 ==> v.queue[n - 1] == rest[n - 2];
  }

  /** An event that clears a token which the batch did not clear is still in the channel. */
  lemma RemainingEvent(v: View, n: nat, q: Prefix, id: RouteId)
    requires InOrder(v) && 0 < n <= |v.queue| && Awaited(v, v.processed, q, id)
    requires !Clears(Fold(v.queue[0], v.queue[1..n]).scope, q, id)
    ensures Awaited(Dequeued(v, n), v.processed, q, id)
  {
    var e :| e in v.queue && e.sequence > v.processed && Clears(e.scope, q, id);
    var i :| 0 <= i < |v.queue| && v.queue[i] == e;
    assert 0 < i < n ==> v.queue[1..n][i - 1] == e;
    FoldIsConservative(v.queue[0], v.queue[1..n], q, id);
    assert v.queue[n..][i - n] == e;
  }

  /** The clearing comes first: even if the batch then fails, the remaining tokens are truthful. */
  lemma DequeueKeepsTruth(s: State, n: nat, doubt: set<Prefix>)
    requires InOrder(s.view) && 0 < n <= |s.view.queue| && AllTruthful(s, s.view.processed, doubt)
    ensures AllTruthful(s.(view := Dequeued(s.view, n)), s.view.processed, doubt)
  {
    var s' := s.(view := Dequeued(s.view, n));
    forall q
      ensures q in doubt || Truthful(s', s.view.processed, q)
    {
      assert q in doubt || Truthful(s, s.view.processed, q);
      if Live(s', q) && Awaited(s.view, s.view.processed, q, s.view.tokens[q].identity) {
        RemainingEvent(s.view, n, q, s.view.tokens[q].identity);
      }
    }
  }

  /** Events that were taken off the channel may be published: whatever is still awaited is newer. */
  lemma TakenMayBePublished(s: State, floor: nat, doubt: set<Prefix>)
    requires InOrder(s.view) && floor <= s.view.sequence - |s.view.queue|
    requires AllTruthful(s, s.view.processed, doubt)
    ensures AllTruthful(s, floor, doubt)
  {
    forall q
      ensures q in doubt || Truthful(s, floor, q)
    {
      assert q in doubt || Truthful(s, s.view.processed, q);
    }
  }

  /**
   A link event needs no lock. If the link of a row that was just read back goes away, and its event is handled
   before the token is stored, then the token is live with nothing outstanding, and the row is gone.
   */
  lemma MintAfterLinkEvent(p: Prefix, r: SelectedRoute, generation: nat) returns (read: State, gone: State, minted: State)
    requires r.state == Active
    ensures read.role == Role(Stores(map[p := r], map[p := {Route(r.desired)}]), generation, false)
    ensures AtomicStep(read, gone) && InOrder(gone.view) && |gone.view.queue| == 1
    ensures var handled := gone.(view := Dequeued(gone.view, 1).(processed := gone.view.sequence));
            Mints(handled, minted, p) && Live(minted, p) && minted.view.processed == minted.view.sequence
    ensures minted.role.stores.Rows(p) == {}
  {
    var event := Event(OneInterface(r.desired.ifIndex), 1);
    read := State(View(map[], 0, 0, []), Role(Stores(map[p := r], map[p := {Route(r.desired)}]), generation, false));
    gone := State(View(map[], 0, 1, [event]), Role(Stores(map[p := r], map[]), generation, false));
    forall q
      ensures StepFor(read, gone, q)
    {
      assert event == gone.view.queue[0] && event in gone.view.queue;
    }
    var token := Token(r.toadGeneration, generation, r.desired);
    minted := State(View(map[p := token], 1, 1, []), gone.role);
  }

  // ----- audits -----

  /** What an audit works from: one stable kernel snapshot with its sequence, and the records to visit. */
  datatype Audit = Audit(kernel: map<Prefix, set<Row>>, sequence: nat, entries: map<Prefix, SelectedRoute>)

  /** A row that the snapshot showed exact is still exact, or an event newer than the snapshot is due. */
  ghost predicate SnapshotHolds(a: Audit, s: State, q: Prefix) {
    forall id :: RowsIn(a.kernel, q) == {Route(id)} ==> Holds(s, a.sequence, q, id)
  }

  /** The record of q is the one the audit set out to visit. */
  predicate Unvisited(a: Audit, s: State, todo: set<Prefix>, q: Prefix) {
    q in todo && q in a.entries && q in s.role.stores.entries && s.role.stores.entries[q] == a.entries[q]
  }

  /**
   While walking, visited prefixes are truthful as of the snapshot, and so are records that a call changed
   meanwhile, unless that call is late: it read its row back before the snapshot and stored its token after.
   */
  ghost predicate AuditedAt(a: Audit, s: State, walking: bool, todo: set<Prefix>, late: set<Prefix>, q: Prefix) {
    && SnapshotHolds(a, s, q)
    && (walking ==> Truthful(s, a.sequence, q) || Unvisited(a, s, todo, q) || q in late)
  }

  ghost predicate AuditInv(a: Audit, s: State, walking: bool, todo: set<Prefix>, late: set<Prefix>) {
    a.sequence <= s.view.sequence && forall q :: AuditedAt(a, s, walking, todo, late, q)
  }

  /** A snapshot whose sequence is current shows the current rows. */
  lemma AuditBegins(a: Audit, s: State)
    requires a.sequence == s.view.sequence && forall q :: RowsIn(a.kernel, q) == s.role.stores.Rows(q)
    ensures AuditInv(a, s, false, {}, {})
  {
  }

  /** The walk begins with the records of the registry snapshot; p may be shown as it was before its call ended. */
  lemma WalkBegins(a: Audit, s: State, a': Audit, p: Prefix, late: set<Prefix>)
    requires AuditInv(a, s, false, {}, {}) && a' == a.(entries := a'.entries)
    requires a'.entries == s.role.stores.entries
             || (a'.entries - {p} == s.role.stores.entries - {p} && (p in late || Truthful(s, a.sequence, p)))
    ensures AuditInv(a', s, true, a'.entries.Keys, late)
  {
    forall q
      ensures AuditedAt(a', s, true, a'.entries.Keys, late, q)
    {
      assert AuditedAt(a, s, false, {}, {}, q);
      if q != p && a'.entries != s.role.stores.entries {
        assert (q in a'.entries) == (q in a'.entries - {p}) == (q in s.role.stores.entries);
        assert q in a'.entries ==> (a'.entries - {p})[q] == (s.role.stores.entries - {p})[q];
      }
    }
  }

  /** Other calls may run between the visits of an audit. */
  lemma StepKeepsAudit(a: Audit, s: State, s': State, walking: bool, todo: set<Prefix>, late: set<Prefix>)
    requires AtomicStep(s, s') && AuditInv(a, s, walking, todo, late)
    ensures AuditInv(a, s', walking, todo, late)
  {
    forall q
      ensures AuditedAt(a, s', walking, todo, late, q)
    {
      assert StepFor(s, s', q) && AuditedAt(a, s, walking, todo, late, q);
      forall id | RowsIn(a.kernel, q) == {Route(id)}
        ensures Holds(s', a.sequence, q, id)
      {
        HoldsOn(s, s', a.sequence, q, id);
      }
      if Live(s', q) && !Renewed(s, s', q) && Live(s, q) && Truthful(s, a.sequence, q) {
        HoldsOn(s, s', a.sequence, q, s.view.tokens[q].identity);
      }
    }
  }

  /** A call that was open at the snapshot stores its token: the walk still has to visit it, or it is late. */
  lemma LateMintKeepsAudit(a: Audit, s: State, s': State, walking: bool, todo: set<Prefix>, late: set<Prefix>, p: Prefix)
    requires AuditInv(a, s, walking, todo, late) && Mints(s, s', p)
    requires walking ==> p in late || Truthful(s', a.sequence, p)
    ensures AuditInv(a, s', walking, todo, late)
  {
    forall q
      ensures AuditedAt(a, s', walking, todo, late, q)
    {
      assert AuditedAt(a, s, walking, todo, late, q);
    }
  }

  /** A visit that finds the exact row in the snapshot mints its token without another read. */
  lemma MintKeepsAudit(a: Audit, s: State, s': State, todo: set<Prefix>, late: set<Prefix>, doubt: set<Prefix>, p: Prefix)
    requires AuditInv(a, s, true, todo, late) && Mints(s, s', p) && p in a.entries
    requires p in s.role.stores.entries && s.role.stores.entries[p].desired == a.entries[p].desired
    requires s'.view.tokens[p].identity == a.entries[p].desired
    requires RowsIn(a.kernel, p) == {Route(a.entries[p].desired)}
    ensures AuditInv(a, s', true, todo - {p}, late)
    ensures s.view.processed <= a.sequence && AllTruthful(s, s.view.processed, doubt) ==>
              AllTruthful(s', s.view.processed, doubt - {p})
  {
    assert AuditedAt(a, s, true, todo, late, p);
    forall q
      ensures AuditedAt(a, s', true, todo - {p}, late, q)
    {
      assert AuditedAt(a, s, true, todo, late, q);
    }
    if s.view.processed <= a.sequence && AllTruthful(s, s.view.processed, doubt) {
      forall q
        ensures q in doubt - {p} || Truthful(s', s.view.processed, q)
      {
        assert q in doubt || Truthful(s, s.view.processed, q);
      }
    }
  }

  /** A visit that left the token of p truthful, or found a record that is no longer the one to visit. */
  lemma VisitEnds(a: Audit, s: State, todo: set<Prefix>, late: set<Prefix>, p: Prefix)
    requires AuditInv(a, s, true, todo, late) && p in a.entries
    requires Truthful(s, a.sequence, p) || p !in s.role.stores.entries || s.role.stores.entries[p] != a.entries[p]
    ensures AuditInv(a, s, true, todo - {p}, late)
  {
    forall q
      ensures AuditedAt(a, s, true, todo - {p}, late, q)
    {
      assert AuditedAt(a, s, true, todo, late, q);
    }
  }

  /** Every record is proven on the current generation and nothing is parked or retiring. */
  predicate IsRestored(s: State) {
    forall q <- s.role.stores.entries ::
      var r := s.role.stores.entries[q];
      && r.state == Active && r.owned == Some(r.desired) && r.park.None?
      && q in s.view.tokens && s.view.tokens[q] == Token(r.toadGeneration, s.role.generation, r.desired)
  }

  /** The record of q is still the one that the audit set out to visit, and the audit may act on it. */
  predicate VisitableIn(a: Audit, entries: map<Prefix, SelectedRoute>, pending: bool, q: Prefix) {
    && q in entries && q in a.entries && entries[q].state == a.entries[q].state
    && entries[q].desired == a.entries[q].desired && entries[q].park.None? && !pending
  }

  /** The records that an audit is to visit. */
  function DueOf(a: Audit, entries: map<Prefix, SelectedRoute>, pending: bool): set<Prefix> {
    set q | q in a.entries && VisitableIn(a, entries, pending, q)
  }

  /** The record of q is proven, and its token says so and is not in doubt. */
  predicate ProvenAt(s: State, doubt: set<Prefix>, q: Prefix) {
    && q in s.role.stores.entries && q in s.view.tokens && q !in doubt
    && var r := s.role.stores.entries[q];
       r.state == Active && s.view.tokens[q] == Token(r.toadGeneration, s.role.generation, r.desired)
  }

  /** The record and, if nobody interferes, the rows of q are as they were. */
  predicate SameAt(calm: bool, w0: Stores, s: State, q: Prefix) {
    && Lookup(s.role.stores.entries, q) == Lookup(w0.entries, q)
    && (calm ==> s.role.stores.Rows(q) == w0.Rows(q))
  }

  /**
   What an undisturbed walk has made of q. The records that were due are proven, each with its token and as the
   only row; all others are as they were. With nothing failing, the planner accepted the rows of the former.
   */
  predicate WalkedAt(calm: bool, sure: bool, todo: set<Prefix>, due: set<Prefix>, w0: Stores, s: State,
                     doubt: set<Prefix>, q: Prefix) {
    if q in todo || q !in due then SameAt(calm, w0, s, q)
    else
      && ProvenAt(s, doubt, q)
      && (calm ==> s.role.stores.Rows(q) == {Route(s.role.stores.entries[q].desired)})
      && (calm && sure ==> q in w0.entries && Accepts(w0.Rows(q), w0.entries[q]))
  }

  ghost predicate Walked(calm: bool, sure: bool, todo: set<Prefix>, due: set<Prefix>, w0: Stores, s: State,
                         doubt: set<Prefix>) {
    forall q :: WalkedAt(calm, sure, todo, due, w0, s, doubt, q)
  }

  /** A visit changes the record, the token and the rows of its own prefix only. */
  ghost predicate OnlyVisits(calm: bool, s: State, s': State, p: Prefix) {
    && s'.role.stores.entries - {p} == s.role.stores.entries - {p} && s'.view.tokens - {p} == s.view.tokens - {p}
    && s'.role.generation == s.role.generation
    && (calm ==> RowsKeptBut(s.role.stores.kernel, s'.role.stores.kernel, p))
  }

  lemma WalkAdvances(calm: bool, sure: bool, todo: set<Prefix>, due: set<Prefix>, p: Prefix, w0: Stores, s: State,
                     s': State, doubt: set<Prefix>, doubt': set<Prefix>)
    requires p in todo && OnlyVisits(calm, s, s', p) && doubt' <= doubt
    requires Walked(calm, sure, todo, due, w0, s, doubt)
    requires WalkedAt(calm, sure, todo - {p}, due, s.role.stores, s', doubt', p)
    ensures Walked(calm, sure, todo - {p}, due, w0, s', doubt') && s'.view.tokens.Keys <= s.view.tokens.Keys + {p}
  {
    assert forall q <- s'.view.tokens :: q == p || q in s'.view.tokens - {p};
    forall q
      ensures WalkedAt(calm, sure, todo - {p}, due, w0, s', doubt', q)
    {
      assert WalkedAt(calm, sure, todo, due, w0, s, doubt, q);
      if q != p {
        SameOutside(s.role.stores.entries, s'.role.stores.entries, p, q);
        SameOutside(s.view.tokens, s'.view.tokens, p, q);
      }
    }
  }

  /** Publishing a sequence and recording doubt about other prefixes does not touch what the walk achieved. */
  lemma WalkEnds(calm: bool, sure: bool, due: set<Prefix>, w0: Stores, s: State, s': State, doubt: set<Prefix>,
                 doubt': set<Prefix>)
    requires Walked(calm, sure, {}, due, w0, s, doubt) && due !! doubt'
    requires s'.role == s.role.(frozen := s'.role.frozen) && s'.view.tokens == s.view.tokens
    ensures Walked(calm, sure, {}, due, w0, s', doubt')
  {
    forall q
      ensures WalkedAt(calm, sure, {}, due, w0, s', doubt', q)
    {
      assert WalkedAt(calm, sure, {}, due, w0, s, doubt, q);
    }
  }

  /** The walk may be measured from an earlier moment with the same records and, if nobody interfered, rows. */
  lemma WalkedSince(calm: bool, sure: bool, sure': bool, due: set<Prefix>, w0: Stores, w1: Stores, s: State,
                    doubt: set<Prefix>)
    requires Walked(calm, sure, {}, due, w1, s, doubt) && (sure' ==> sure)
    requires w1.entries == w0.entries && (calm ==> w1.kernel == w0.kernel)
    ensures Walked(calm, sure', {}, due, w0, s, doubt)
  {
    forall q
      ensures WalkedAt(calm, sure', {}, due, w0, s, doubt, q)
    {
      assert WalkedAt(calm, sure, {}, due, w1, s, doubt, q);
    }
  }

  lemma SameOutside<T>(m: map<Prefix, T>, m': map<Prefix, T>, p: Prefix, q: Prefix)
    requires m - {p} == m' - {p} && q != p
    ensures (q in m) == (q in m') && (q in m ==> m'[q] == m[q])
  {
    assert (q in m) == (q in m - {p}) && (q in m') == (q in m' - {p});
    assert q in m ==> (m - {p})[q] == (m' - {p})[q];
  }

  /** Every visited record is truthful as of the snapshot, so its sequence may be published for them. */
  lemma AuditEnds(a: Audit, s: State, late: set<Prefix>)
    requires AuditInv(a, s, true, {}, late)
    ensures AllTruthful(s, a.sequence, late)
  {
    forall q
      ensures q in late || Truthful(s, a.sequence, q)
    {
      assert AuditedAt(a, s, true, {}, late, q);
    }
  }

  /** Publishing a sequence up to which all tokens are truthful. */
  lemma NoteKeepsTruth(s: State, floor: nat, processed: nat, doubt: set<Prefix>)
    requires AllTruthful(s, floor, doubt)
    ensures AllTruthful(s.(view := s.view.(processed := processed)), floor, doubt)
  {
    var s' := s.(view := s.view.(processed := processed));
    forall q
      ensures q in doubt || Truthful(s', floor, q)
    {
      assert q in doubt || Truthful(s, floor, q);
    }
  }

  // ----- publishing without a visit -----

  function StateOf(v: View, entries: map<Prefix, SelectedRoute>, kernel: map<Prefix, set<Row>>, generation: nat, frozen: bool)
    : State
  {
    State(v, Role(Stores(entries, kernel), generation, frozen))
  }

  /** Publishing the sequence `at` without refreshing the tokens of `skipped` is sound on this kernel. */
  ghost predicate MayPublish(v: View, entries: map<Prefix, SelectedRoute>, kernel: map<Prefix, set<Row>>, generation: nat,
                             frozen: bool, at: nat, skipped: iset<Prefix>) {
    var s := StateOf(v, entries, kernel, generation, frozen);
    (forall q <- skipped :: Truthful(s, v.processed, q)) ==> forall q <- skipped :: Truthful(s, at, q)
  }

  /** The token of q is live, and all the events still to be processed that clear it are at or before `at`. */
  predicate Overlooked(s: State, at: nat, q: Prefix) {
    && Live(s, q)
    && Awaited(s.view, s.view.processed, q, s.view.tokens[q].identity)
    && !Awaited(s.view, at, q, s.view.tokens[q].identity)
  }

  /** The kernel on which only the row of q is missing. */
  function WithoutRowOf(v: View, q: Prefix): map<Prefix, set<Row>> {
    map p | p in v.tokens && p != q :: {Route(v.tokens[p].identity)}
  }

  /**
   An audit that publishes its sequence without visiting some records, as one does for all of them while a
   startup restore is pending and for one whose call was late, keeps their tokens truthful whatever the kernel
   holds if and only if none is overlooked. Tokens, records and channel are the controller's own, so it could
   tell.
   */
  lemma UnvisitedAudit(v: View, entries: map<Prefix, SelectedRoute>, generation: nat, frozen: bool, at: nat,
                       skipped: iset<Prefix>)
    ensures (forall kernel :: MayPublish(v, entries, kernel, generation, frozen, at, skipped)) <==>
            (forall q <- skipped :: !Overlooked(StateOf(v, entries, map[], generation, frozen), at, q))
  {
    if q :| q in skipped && Overlooked(StateOf(v, entries, map[], generation, frozen), at, q) {
      var kernel := WithoutRowOf(v, q);
      var s := StateOf(v, entries, kernel, generation, frozen);
      assert forall p :: Truthful(s, v.processed, p);
      assert !Truthful(s, at, q);
      assert !MayPublish(v, entries, kernel, generation, frozen, at, skipped);
    } else {
      forall kernel
        ensures MayPublish(v, entries, kernel, generation, frozen, at, skipped)
      {
        var s := StateOf(v, entries, kernel, generation, frozen);
        forall q | q in skipped && Truthful(s, v.processed, q)
          ensures Truthful(s, at, q)
        {
          assert !Overlooked(StateOf(v, entries, map[], generation, frozen), at, q);
        }
      }
    }
  }

  /** What is not overlooked stays truthful. */
  lemma UnoverlookedStaysTruthful(s: State, at: nat, q: Prefix)
    requires Truthful(s, s.view.processed, q) && !Overlooked(s, at, q)
    ensures Truthful(s, at, q)
  {
  }

  /** The tokens that an audit left unvisited although the events up to `at` would have cleared them. */
  function Missed(s: State, pending: bool, at: nat, late: set<Prefix>): set<Prefix> {
    set q | q in s.view.tokens && (pending || q in late) && Overlooked(s, at, q)
  }

  /** With the overlooked tokens in doubt, all others are truthful as of the published sequence. */
  lemma DoubtSuffices(s: State, pending: bool, at: nat, late: set<Prefix>, doubt: set<Prefix>, doubt': set<Prefix>)
    requires AllTruthful(s, s.view.processed, doubt) && (pending || AllTruthful(s, at, late))
    requires Missed(s, pending, at, late) + doubt * late <= doubt' && (pending ==> doubt <= doubt')
    ensures AllTruthful(s, at, doubt')
  {
    forall q
      ensures q in doubt' || Truthful(s, at, q)
    {
      assert q in doubt || Truthful(s, s.view.processed, q);
      assert pending || q in late || Truthful(s, at, q);
      if q !in doubt' && (pending || q in late) && q in s.view.tokens {
        UnoverlookedStaysTruthful(s, at, q);
      }
    }
  }
}
