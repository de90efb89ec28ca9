/**
 The fast path of a role in place: tokens, the processed sequence and the event channel around the
 selected-route manager. A call is one step up to its read-back, with the events that the observer raised
 meanwhile, and storing its token is another; edits, link events and the snapshots of audits may fall in between.
 An audit lets other calls in between its visits.
 */
module Reconciler {
  import opened Identity
  import opened Records
  import opened Planner
  import opened Protocol
  import opened Stages
  import opened Recovery
  import opened SelectedRoutes
  import opened Observation
  import opened FastPath

  class SelectedRouteReconciler {
    const manager: SelectedRouteManager
    /** The observer raises events for actual changes only. */
    const terse: bool
    /** Events and the snapshots of audits wait for the call that is running. The code does not do that. */
    const serial: bool
    var tokens: map<Prefix, Token>
    var processed: nat
    var sequence: nat
    var queue: seq<Event>
    var quarantined: bool
    /** The process started from a checkpoint with records, so a startup restore was pending. */
    var restored: bool
    /** The call that has read its row back and not stored its token yet; it holds the lock of the role. */
    var open: Option<Reading>
    /** Prefixes whose token may outlive the event that should have cleared it. */
    ghost var doubt: set<Prefix>

    ghost function Snap(): State
      reads this, manager
    {
      State(View(tokens, processed, sequence, queue), Role(manager.World(), manager.routeGeneration, manager.frozen))
    }

    ghost predicate Aged()
      reads this`tokens, manager`routeGeneration
    {
      forall q <- tokens :: tokens[q].routeGeneration <= manager.routeGeneration
    }

    /** The row that the open call read back is still the only one, or an event that arrived since says otherwise. */
    ghost predicate ReadingOk()
      reads this, manager
    {
      open.Some? ==>
        var p := open.value.prefix;
        && p in manager.entries && manager.entries[p].state == Active
        && (ReadBack(p) || ClearedBy(open.value.arrived, p, manager.entries[p].desired))
        && (serial ==> forall e <- open.value.arrived :: e in queue && e.sequence > processed)
    }

    /** The record of p is proven by its live row. */
    ghost predicate ReadBack(p: Prefix)
      reads manager
    {
      && p in manager.entries && manager.entries[p].state == Active
      && (manager.frozen || manager.Rows(p) == {Route(manager.entries[p].desired)})
    }

    ghost predicate Core()
      reads this, manager
    {
      && manager.Settled() && manager.ParksFrozen() && InOrder(Snap().view) && Aged()
      && (manager.restorePending ==> restored)
    }

    /** A live token was made for the process of its record, unless a call is about to replace it. */
    ghost predicate MatchedAt(q: Prefix)
      reads this, manager
    {
      Live(Snap(), q) && q !in OpenPrefix() ==> tokens[q].toadGeneration == manager.entries[q].toadGeneration
    }

    ghost predicate Base()
      reads this, manager
    {
      Core() && ReadingOk() && forall q :: MatchedAt(q)
    }

    /** The prefix of the call that is open, if there is one. */
    function OpenPrefix(): set<Prefix>
      reads this`open
    {
      if open.Some? then {open.value.prefix} else {}
    }

    /**
     No live token lies but those in doubt. In a process that started empty there are none if events and
     snapshots wait for the running call.
     */
    ghost predicate Truth()
      reads this, manager
    {
      (doubt != {} ==> restored || !serial) && AllTruthful(Snap(), processed, doubt)
    }

    constructor (manager: SelectedRouteManager, terse: bool, serial: bool)
      requires manager.Settled() && manager.ParksFrozen()
      ensures this.manager == manager && this.terse == terse && this.serial == serial
      ensures Base() && Truth() && doubt == {} && tokens == map[] && open == None && restored == manager.restorePending
    {
      this.manager, this.terse, this.serial := manager, terse, serial;
      tokens, processed, sequence, queue, quarantined := map[], 0, 0, [], false;
      restored, doubt, open := manager.restorePending, {}, None;
    }

    // ----- the observer -----

    /** The kernel change from `before` is explained by these scopes. */
    predicate Lossless(before: map<Prefix, set<Row>>, scopes: seq<Scope>)
      reads manager`kernel
    {
      forall q <- before.Keys + manager.kernel.Keys ::
        || RowsIn(before, q) == manager.Rows(q)
        || exists scope <- scopes :: Explains(scope, RowsIn(before, q), manager.Rows(q), q)
    }

    /** The new events account for every change since `before`. */
    twostate predicate Observed(before: map<Prefix, set<Row>>)
      reads this, manager
    {
      && Raises(old(Snap()).view, Snap().view) && InOrder(Snap().view)
      && open == Extended(old(open), queue[|old(queue)|..])
      && (forall q :: ExplainedBy(queue[|old(queue)|..], RowsIn(before, q), manager.Rows(q), q))
      && (terse && manager.kernel == before ==>
            sequence == old(sequence) && queue == old(queue) && open == old(open))
    }

    /** The observer raises events for every change since `before`, its own choice of scopes. */
    method Observe(before: map<Prefix, set<Row>>)
      requires InOrder(Snap().view)
      modifies `sequence, `queue, `open
      ensures Observed(before)
      ensures forall q :: Explained(Snap().view, old(sequence), RowsIn(before, q), manager.Rows(q), q)
      ensures sequence == old(sequence) ==> forall q :: RowsIn(before, q) == manager.Rows(q)
    {
      if terse && manager.kernel == before {
        assert queue[|queue|..] == [] && (open.Some? ==> open.value.arrived + [] == open.value.arrived);
        return;
      }
      var scopes: seq<Scope> := *;
      if !Lossless(before, scopes) {
        scopes := [Everything];
        assert scopes[0] in scopes;
      }
      var last := sequence;
      var events := seq(|scopes|, i requires 0 <= i < |scopes| => Event(scopes[i], last + 1 + i));
      queue, sequence := queue + events, sequence + |scopes|;
      open := Extended(open, events);
      assert queue[|old(queue)|..] == events;
      LosslessIsExplained(before, scopes, events);
      ObservedIsExplained(before);
    }

    lemma LosslessIsExplained(before: map<Prefix, set<Row>>, scopes: seq<Scope>, events: seq<Event>)
      requires Lossless(before, scopes) && |events| == |scopes|
      requires forall i | 0 <= i < |events| :: events[i].scope == scopes[i]
      ensures forall q :: ExplainedBy(events, RowsIn(before, q), manager.Rows(q), q)
    {
      forall q
        ensures ExplainedBy(events, RowsIn(before, q), manager.Rows(q), q)
      {
        if RowsIn(before, q) != manager.Rows(q) {
          assert q in before.Keys + manager.kernel.Keys;
          var scope :| scope in scopes && Explains(scope, RowsIn(before, q), manager.Rows(q), q);
          var i :| 0 <= i < |scopes| && scopes[i] == scope;
          assert events[i] in events;
        }
      }
    }

    twostate lemma ObservedIsExplained(before: map<Prefix, set<Row>>)
      requires old(InOrder(Snap().view)) && Observed(before)
      ensures forall q :: Explained(Snap().view, old(sequence), RowsIn(before, q), manager.Rows(q), q)
      ensures sequence == old(sequence) ==> forall q :: RowsIn(before, q) == manager.Rows(q)
    {
      var events := queue[|old(queue)|..];
      forall e <- events
        ensures e in queue && e.sequence > old(sequence) && sequence > old(sequence)
      {
        NewEvent(old(Snap()).view, Snap().view, e);
      }
      forall q, id | RowsIn(before, q) == {Route(id)} != manager.Rows(q)
        ensures Awaited(Snap().view, old(sequence), q, id)
      {
        ExplainedIsCleared(events, id, manager.Rows(q), q);
      }
    }

    /** Anybody else edits the kernel while a call is running, or while its token is still to be stored. */
    method OutsideEdits()
      requires Base()
      modifies manager`kernel, manager`run, `sequence, `queue, `open
      ensures Base() && AtomicStep(old(Snap()), Snap()) && (old(Truth()) ==> Truth()) && StillOpen()
      ensures sequence == old(sequence) ==> forall q :: manager.Rows(q) == old(manager.Rows(q))
      ensures manager.calm ==> manager.kernel == old(manager.kernel)
      ensures manager.calm && terse ==> Snap() == old(Snap()) && open == old(open)
    {
      var before := manager.kernel;
      manager.OutsideEdits();
      Observe(before);
      EditEnds();
    }

    /** Somebody else replaces the route table, between calls or while the token of one is still to be stored. */
    method Edit(table: map<Prefix, set<Row>>)
      requires Base() && !manager.quiet
      modifies manager`kernel, manager`run, `sequence, `queue, `open
      ensures Base() && AtomicStep(old(Snap()), Snap()) && (old(Truth()) ==> Truth()) && StillOpen()
      ensures manager.kernel == table
    {
      var before := manager.kernel;
      manager.Edit(table);
      Observe(before);
      EditEnds();
    }

    /** The same call is open, and it has seen the events that were raised. */
    twostate predicate StillOpen()
      reads this
    {
      old(queue) <= queue && open == Extended(old(open), queue[|old(queue)|..])
    }

    /** After an edit by somebody else: every record and token is untouched, and an open call has seen the events. */
    twostate lemma EditEnds()
      requires old(Base()) && Core() && doubt == old(doubt) && restored == old(restored) && tokens == old(tokens)
      requires Observed(old(manager.kernel))
      requires manager.frozen == old(manager.frozen) && manager.routeGeneration == old(manager.routeGeneration)
      requires manager.entries == old(manager.entries)
      ensures Base() && AtomicStep(old(Snap()), Snap()) && (old(Truth()) ==> Truth())
    {
      ObservedIsExplained(old(manager.kernel));
      assert forall q :: Untouched(old(Snap()), Snap(), q);
      if open == old(open) {
        StayMatched();
      } else {
        forall q ensures MatchedAt(q) { assert old(MatchedAt(q)); }
      }
      if old(Truth()) {
        StepKeepsTruth(old(Snap()), Snap(), processed, doubt);
      }
      if open.Some? {
        ReadingKept();
      }
    }

    twostate lemma ReadingKept()
      requires old(Base()) && Core() && old(open).Some? && Observed(old(manager.kernel))
      requires manager.entries == old(manager.entries) && manager.frozen == old(manager.frozen)
      ensures ReadingOk()
    {
      var p, events, was := open.value.prefix, queue[|old(queue)|..], old(open).value.arrived;
      var id := manager.entries[p].desired;
      assert ExplainedBy(events, RowsIn(old(manager.kernel), p), manager.Rows(p), p);
      if !ReadBack(p) && old(ReadBack(p)) {
        ExplainedIsCleared(events, id, manager.Rows(p), p);
        var e :| e in events && Clears(e.scope, p, id);
        assert e in was + events;
      } else if !ReadBack(p) {
        var e :| e in was && Clears(e.scope, p, id);
        assert e in was + events;
      }
      forall e | e in open.value.arrived && serial
        ensures e in queue && e.sequence > processed
      {
        if e in events {
          NewEvent(old(Snap()).view, Snap().view, e);
        }
      }
    }

    /** Tokens may have gone, but no token or record is new. */
    twostate lemma StayMatched()
      requires (forall q :: old(MatchedAt(q))) && open == old(open) && manager.entries == old(manager.entries)
      requires manager.routeGeneration == old(manager.routeGeneration) && (old(manager.frozen) ==> manager.frozen)
      requires forall q <- tokens :: q in old(tokens) && tokens[q] == old(tokens)[q]
      ensures forall q :: MatchedAt(q)
    {
      forall q ensures MatchedAt(q) { assert old(MatchedAt(q)); }
    }

    /** After a call on p: every other record and token is untouched, and p is untouched or renewed. */
    twostate lemma CallEnds(p: Prefix)
      requires old(Base()) && Core() && doubt == old(doubt) && restored == old(restored)
      requires Raises(old(Snap()).view, Snap().view)
      requires forall q :: Explained(Snap().view, old(sequence), RowsIn(old(manager.kernel), q), manager.Rows(q), q)
      requires manager.frozen == old(manager.frozen) && manager.routeGeneration == old(manager.routeGeneration)
      requires manager.entries - {p} == old(manager.entries) - {p} && tokens - {p} == old(tokens) - {p}
      requires Untouched(old(Snap()), Snap(), p) || Renewed(old(Snap()), Snap(), p)
      requires old(open).None? && (open.Some? ==> open.value.prefix == p)
      requires open.Some? || !Live(Snap(), p) || Untouched(old(Snap()), Snap(), p)
      ensures AtomicStep(old(Snap()), Snap()) && (old(Truth()) ==> Truth()) && forall q :: MatchedAt(q)
    {
      forall q
        ensures StepFor(old(Snap()), Snap(), q) && MatchedAt(q)
      {
        assert old(MatchedAt(q));
        if q != p {
          SameOutside(old(manager.entries), manager.entries, p, q);
          SameOutside(old(tokens), tokens, p, q);
        }
      }
      if old(Truth()) {
        StepKeepsTruth(old(Snap()), Snap(), processed, doubt);
      }
    }

    /** After a recovery no token is live: the role is frozen, or its generation is new. */
    twostate lemma RecoveryEnds()
      requires Raises(old(Snap()).view, Snap().view) && doubt == {}
      requires forall q :: Explained(Snap().view, old(sequence), RowsIn(old(manager.kernel), q), manager.Rows(q), q)
      requires forall q <- tokens :: tokens[q].routeGeneration <= old(manager.routeGeneration)
      requires manager.frozen || manager.routeGeneration > old(manager.routeGeneration)
      ensures AtomicStep(old(Snap()), Snap()) && Truth() && forall q :: MatchedAt(q)
    {
      forall q
        ensures !Live(Snap(), q) && Renewed(old(Snap()), Snap(), q) && MatchedAt(q)
      {
      }
    }

    // ----- intents -----

    /** The record of p is proven, and its token says so. */
    ghost predicate Verified(p: Prefix)
      reads this, manager
    {
      && p in manager.entries && manager.entries[p].state == Active && p !in doubt
      && p in tokens
      && var r := manager.entries[p];
         tokens[p] == Token(r.toadGeneration, manager.routeGeneration, r.desired)
    }

    /** The token path may answer: no event is outstanding and the token proves this very request. */
    predicate Answers(p: Prefix, zone: string, source: Source, toadGeneration: nat, id: RouteId)
      reads this, manager
    {
      && !manager.frozen && processed == sequence
      && p in tokens && tokens[p] == Token(toadGeneration, manager.routeGeneration, id)
      && p in manager.entries
      && var r := manager.entries[p];
         r.state == Active && r.zone == zone && r.source == source && r.desired == id && r.owned == Some(id)
    }

    /** The fast path agrees with the kernel, but for the prefixes in doubt. */
    lemma FastPathIsExact(p: Prefix, zone: string, source: Source, toadGeneration: nat, id: RouteId)
      requires Base() && Truth() && p !in doubt && Answers(p, zone, source, toadGeneration, id)
      ensures manager.Rows(p) == {Route(id)}
    {
      AnswerIsExact(Snap(), doubt, p);
    }

    /**
     In a process that started without records to restore it always would, if events and audit snapshots waited
     for the running call.
     */
    lemma FastPathOfFreshRole(p: Prefix, zone: string, source: Source, toadGeneration: nat, id: RouteId)
      requires Base() && Truth() && !restored && serial && Answers(p, zone, source, toadGeneration, id)
      ensures manager.Rows(p) == {Route(id)}
    {
      FastPathIsExact(p, zone, source, toadGeneration, id);
    }

    /** The end of a call on p up to its read-back: the events it caused, and the token still to be stored. */
    method Close(p: Prefix, before: map<Prefix, set<Row>>, proven: bool)
      requires InOrder(Snap().view) && manager.ParksFrozen() && open.None?
      requires proven ==> p in manager.entries && manager.entries[p].state == Active
                          && Exact(manager.Rows(p), manager.entries[p])
      modifies `sequence, `queue, `open
      ensures InOrder(Snap().view) && Raises(old(Snap()).view, Snap().view)
      ensures forall q :: Explained(Snap().view, old(sequence), RowsIn(before, q), manager.Rows(q), q)
      ensures open == (if proven then Some(Reading(p, [])) else None) && (proven ==> ReadBack(p))
      ensures forall q :: Live(Snap(), q) == old(Live(Snap(), q))
    {
      Observe(before);
      if proven {
        if !manager.frozen {
          ExactUnparked(manager.Rows(p), manager.entries[p]);
        }
        open := Some(Reading(p, []));
      }
    }

    /**
     Stores the token of the open call. It is in doubt exactly if an event that arrived since the read-back
     clears it and none that does is still to be processed.
     */
    method Finish()
      requires Base() && Truth() && open.Some?
      modifies `tokens, `open, `doubt
      ensures Base() && Truth() && open == None
      ensures var p := old(open).value.prefix;
              && Mints(old(Snap()), Snap(), p)
              && var r := manager.entries[p];
                 && tokens[p] == Token(r.toadGeneration, manager.routeGeneration, r.desired)
                 && doubt == if Overtaken(old(Snap()).view, old(open).value.arrived, p, r.desired)
                             then old(doubt) + {p} else old(doubt) - {p}
    {
      var p := open.value.prefix;
      var r := manager.entries[p];
      ghost var v := Snap().view;
      doubt := if Overtaken(v, open.value.arrived, p, r.desired) then doubt + {p} else doubt - {p};
      tokens := tokens[p := Token(r.toadGeneration, manager.routeGeneration, r.desired)];
      open := None;
      forall q
        ensures (q in doubt || Truthful(Snap(), processed, q)) && MatchedAt(q)
      {
        assert (q in old(doubt) || Truthful(old(Snap()), processed, q)) && old(MatchedAt(q));
        assert Awaited(Snap().view, processed, p, r.desired) == Awaited(v, processed, p, r.desired);
      }
    }

    /** Stores the token of a call right after its read-back, but for edits in between. */
    method Settle()
      requires Base() && Truth() && open.Some? && open.value.arrived == [] && ReadBack(open.value.prefix)
      modifies manager`kernel, manager`run, `tokens, `sequence, `queue, `open, `doubt
      ensures Base() && Truth() && open == None && AtomicStep(old(Snap()), Snap())
      ensures Verified(old(open).value.prefix) && doubt == old(doubt) - {old(open).value.prefix}
      ensures tokens - {old(open).value.prefix} == old(tokens) - {old(open).value.prefix}
      ensures manager.calm ==> manager.kernel == old(manager.kernel)
    {
      var p := open.value.prefix;
      ghost var s := Snap();
      OutsideEdits();
      assert open.value.arrived == queue[|old(queue)|..];
      ghost var s' := Snap();
      NotOvertaken(s.view, s'.view, p, manager.entries[p].desired);
      Finish();
      MintEnds(s, s', Snap(), p);
    }

    /** The same, as the end of a step that began in s. */
    method SettleSince(ghost s: State)
      requires Base() && Truth() && open.Some? && open.value.arrived == [] && ReadBack(open.value.prefix)
      requires AtomicStep(s, Snap())
      modifies manager`kernel, manager`run, `tokens, `sequence, `queue, `open, `doubt
      ensures Base() && Truth() && open == None && AtomicStep(s, Snap()) && Renewed(s, Snap(), old(open).value.prefix)
      ensures Verified(old(open).value.prefix) && doubt == old(doubt) - {old(open).value.prefix}
      ensures tokens - {old(open).value.prefix} == old(tokens) - {old(open).value.prefix}
      ensures manager.calm ==> manager.kernel == old(manager.kernel)
    {
      ghost var read, p := Snap(), open.value.prefix;
      Settle();
      StepsCompose(s, read, Snap());
      assert StepFor(read, Snap(), p);
    }

    /** What an intent that the token path did not answer comes to. */
    twostate predicate Reserved(p: Prefix, zone: string, source: Source, runtime: Runtime, id: RouteId, new res: Result<bool>)
      reads this, manager
    {
      var reserved := old(manager.Reservation(p, zone, source, runtime.toadGeneration, manager.routeGeneration,
                                              runtime.iface, id));
      && (res.Ok? ==> p in manager.entries && manager.entries[p] == Proven(reserved)
                      && manager.entries - {p} == old(manager.entries) - {p})
      && (manager.calm && manager.reliable && !old(manager.frozen) ==>
            !manager.halted && (res.Ok? <==> id.Valid(p) && Accepts(old(manager.Rows(p)), reserved)))
    }

    /** The canonical transaction of one intent up to its read-back. The token is still to be stored. */
    method Begin(p: Prefix, zone: string, source: Source, runtime: Runtime, id: RouteId) returns (res: Result<bool>)
      requires Base() && Truth() && open.None?
      modifies manager`entries, manager`disk, manager`diskGeneration, manager`kernel, manager`halted, manager`run
      modifies `sequence, `queue, `open
      ensures manager.Valid()
      ensures manager.halted || (Base() && Truth() && AtomicStep(old(Snap()), Snap()))
      ensures open == (if res.Ok? then Some(Reading(p, [])) else None)
      ensures res.Ok? ==> !manager.halted && ReadBack(p) && manager.disk == manager.entries && !manager.frozen
      ensures Reserved(p, zone, source, runtime, id, res)
    {
      var before := manager.kernel;
      res := manager.Ensure(p, zone, source, runtime, id);
      if manager.halted {
        return;
      }
      Close(p, before, res.Ok?);
      CallEnds(p);
    }

    /** The canonical transaction of one intent, and the token for the row it proved. */
    method Apply(p: Prefix, zone: string, source: Source, runtime: Runtime, id: RouteId) returns (res: Result<bool>)
      requires Base() && Truth() && open.None?
      modifies manager`entries, manager`disk, manager`diskGeneration, manager`kernel, manager`halted, manager`run
      modifies `tokens, `sequence, `queue, `open, `doubt
      ensures manager.Valid() && open.None? && doubt <= old(doubt)
      ensures manager.halted || (Base() && Truth() && AtomicStep(old(Snap()), Snap()))
      ensures res.Ok? ==> !manager.halted && !manager.frozen && Verified(p) && manager.disk == manager.entries
      ensures res.Ok? && manager.calm ==> manager.Rows(p) == {Route(id)}
      ensures Reserved(p, zone, source, runtime, id, res)
    {
      res := Begin(p, zone, source, runtime, id);
      if res.Ok? {
        SettleSince(old(Snap()));
      }
    }

    /**
     The record and the token are what this very request asks for. A token answer leaves the record that the slow
     path would leave, but for the route generation and the interface name of the last reservation.
     */
    twostate predicate AsRequested(p: Prefix, zone: string, source: Source, runtime: Runtime, id: RouteId)
      reads this, manager
    {
      && p in manager.entries && p in tokens
      && tokens[p] == Token(runtime.toadGeneration, manager.routeGeneration, id)
      && var r := manager.entries[p];
         && r.zone == zone && r.source == source && r.desired == id && r.owned == Some(id) && r.state == Active
         && r.toadGeneration == runtime.toadGeneration
         && r == Proven(old(manager.Reservation(p, zone, source, runtime.toadGeneration, manager.routeGeneration,
                                                runtime.iface, id))).(routeGeneration := r.routeGeneration, iface := r.iface)
    }

    /**
     An Ensure: answered by the token with no I/O, or driven through the canonical transaction. Its success means
     that the row was read back, and if it is gone by now, that an event which clears the token is outstanding.
     */
    method Ensure(p: Prefix, zone: string, source: Source, runtime: Runtime, id: RouteId) returns (res: Result<bool>)
      requires Base() && Truth() && open.None?
      modifies manager`entries, manager`disk, manager`diskGeneration, manager`kernel, manager`halted, manager`run
      modifies `tokens, `sequence, `queue, `open, `doubt
      ensures manager.Valid() && open.None? && doubt <= old(doubt)
      ensures manager.halted || (Base() && Truth() && AtomicStep(old(Snap()), Snap()))
      ensures if old(Answers(p, zone, source, runtime.toadGeneration, id)) then res.Ok? && Snap() == old(Snap())
              else Reserved(p, zone, source, runtime, id, res)
                   && (res.Ok? ==> Verified(p) && manager.disk == manager.entries)
      ensures res.Ok? ==> AsRequested(p, zone, source, runtime, id)
      ensures res.Ok? && p !in doubt ==> Holds(Snap(), processed, p, id)
      ensures res.Ok? && p !in doubt && (manager.calm || old(Answers(p, zone, source, runtime.toadGeneration, id))) ==>
                manager.Rows(p) == {Route(id)}
    {
      if Answers(p, zone, source, runtime.toadGeneration, id) {
        if p !in doubt {
          FastPathIsExact(p, zone, source, runtime.toadGeneration, id);
        }
        assert forall q :: Untouched(Snap(), Snap(), q);
        assert MatchedAt(p);
        return Ok(false);
      }
      res := Apply(p, zone, source, runtime, id);
      assert res.Ok? ==> Truthful(Snap(), processed, p);
    }

    /**
     What retiring p comes to: the record, its rows and its token are gone and nothing else, or the record is
     durably on its way out.
     */
    twostate predicate Forgotten(p: Prefix, new ok: bool)
      reads this, manager
    {
      && (manager.calm && manager.reliable ==> ok)
      && (ok ==> !manager.halted && manager.entries == old(manager.entries) - {p})
      && (ok && p in old(manager.entries) ==> p !in tokens && manager.disk == manager.entries)
      && (ok && manager.calm ==>
            && RowsKeptBut(old(manager.kernel), manager.kernel, p)
            && forall row :: row in manager.Rows(p) <==>
                 row in old(manager.Rows(p)) && !(p in old(manager.entries) && Disowned(old(manager.entries)[p], row)))
      && (!ok && !manager.halted ==>
            && p in manager.entries && manager.entries[p].state == Retiring
            && manager.entries - {p} == old(manager.entries) - {p}
            && (p == manager.probe ==> p in manager.disk && manager.disk[p].state == Retiring))
    }

    /** Retires one intent and drops its token. */
    method Forget(p: Prefix) returns (ok: bool)
      requires Base() && Truth() && open.None?
      modifies manager`entries, manager`disk, manager`diskGeneration, manager`kernel, manager`halted, manager`run
      modifies `tokens, `sequence, `queue, `open
      ensures manager.Valid() && open.None?
      ensures manager.halted || (Base() && Truth() && AtomicStep(old(Snap()), Snap()))
      ensures Forgotten(p, ok) && (!manager.halted ==> tokens - {p} == old(tokens) - {p}) && (!ok ==> tokens == old(tokens))
    {
      var before := manager.kernel;
      ok := Retire(p);
      if manager.halted {
        return;
      }
      Close(p, before, false);
      CallEnds(p);
    }

    /** Retires one record and, once it is gone, its token. */
    method Retire(p: Prefix) returns (ok: bool)
      requires Core()
      modifies manager`entries, manager`disk, manager`diskGeneration, manager`kernel, manager`halted, manager`run, `tokens
      ensures manager.Valid() && (manager.halted || Core()) && Forgotten(p, ok)
      ensures !manager.halted ==> manager.entries - {p} == old(manager.entries) - {p} && tokens - {p} == old(tokens) - {p}
      ensures !manager.halted && p in manager.entries ==> manager.entries[p].state == Retiring
      ensures !ok ==> tokens == old(tokens)
    {
      var registered := p in manager.entries;
      ok := manager.RetireRecord(p);
      if ok && registered {
        tokens := tokens - {p};
        forall row ensures row in Doomed(old(manager.entries)[p]) <==> Disowned(old(manager.entries)[p], row) {
          DoomedExactly(old(manager.entries)[p], row);
        }
      }
    }

    /** What driving the record of p through its transaction comes to. */
    twostate predicate Driven(p: Prefix, new ok: bool)
      requires p in old(manager.entries)
      reads this, manager
    {
      var r := old(manager.entries)[p];
      && (!manager.halted ==> manager.entries - {p} == old(manager.entries) - {p})
      && (ok ==> p in manager.entries && manager.entries[p] == Proven(r) && manager.disk == manager.entries)
      && (manager.calm ==> RowsKeptBut(old(manager.kernel), manager.kernel, p))
      && (manager.calm && ok && r.park.None? ==> manager.Rows(p) == {Route(r.desired)})
      && (manager.calm && manager.reliable ==> !manager.halted && (ok <==> Accepts(old(manager.Rows(p)), r)))
    }

    /** The canonical transaction of one registered record, and the token for the row it proved. */
    method Reconcile(p: Prefix) returns (ok: bool)
      requires Base() && Truth() && open.None? && p in manager.entries
      modifies manager`entries, manager`disk, manager`diskGeneration, manager`kernel, manager`halted, manager`run
      modifies `tokens, `sequence, `queue, `open, `doubt
      ensures manager.Valid() && open.None? && doubt <= old(doubt)
      ensures manager.halted || (Base() && Truth() && AtomicStep(old(Snap()), Snap()))
      ensures ok ==> !manager.halted && Renewed(old(Snap()), Snap(), p) && Verified(p)
      ensures Driven(p, ok) && (ok ==> tokens - {p} == old(tokens) - {p})
    {
      ok := ReconcileUnminted(p);
      if ok {
        SettleSince(old(Snap()));
      }
    }

    /** The canonical transaction of one registered record up to its read-back. */
    method ReconcileUnminted(p: Prefix) returns (ok: bool)
      requires Base() && Truth() && open.None? && p in manager.entries
      modifies manager`entries, manager`disk, manager`diskGeneration, manager`kernel, manager`halted, manager`run
      modifies `sequence, `queue, `open
      ensures manager.Valid() && (ok ==> !manager.halted)
      ensures manager.halted || (Base() && Truth() && AtomicStep(old(Snap()), Snap()))
      ensures open == (if ok then Some(Reading(p, [])) else None) && (ok ==> ReadBack(p))
      ensures Driven(p, ok)
    {
      var before := manager.kernel;
      ok := Drive(p);
      if manager.halted {
        return;
      }
      Close(p, before, ok);
      CallEnds(p);
    }

    /** The transaction itself. */
    method Drive(p: Prefix) returns (ok: bool)
      requires Core() && p in manager.entries
      modifies manager`entries, manager`disk, manager`diskGeneration, manager`kernel, manager`halted, manager`run
      ensures manager.Valid() && (manager.halted || Core()) && Driven(p, ok) && (ok ==> !manager.halted)
      ensures !manager.halted ==> p in manager.entries
      ensures ok ==> manager.entries[p].state == Active && Exact(manager.Rows(p), manager.entries[p])
      ensures !ok && !manager.halted ==> manager.entries[p].state != Active
    {
      var res := manager.ReconcileRecord(p);
      ok := res.Ok?;
      if ok && manager.entries[p].park.None? {
        ExactUnparked(manager.Rows(p), manager.entries[p]);
      }
    }

    /** The end of a recovery: tokens for whatever it restored, and the events it caused. */
    method CloseRecovery(before: map<Prefix, set<Row>>, generation: nat)
      requires InOrder(Snap().view) && open.None? && forall q <- tokens :: tokens[q].routeGeneration <= generation
      modifies `tokens, `sequence, `queue, `open
      ensures InOrder(Snap().view) && Raises(old(Snap()).view, Snap().view) && open.None?
      ensures forall q :: Explained(Snap().view, old(sequence), RowsIn(before, q), manager.Rows(q), q)
      ensures forall q <- tokens :: tokens[q].routeGeneration <= generation
    {
      var proven: set<Prefix> := *;
      tokens := tokens + map q | q in proven && q in manager.entries ::
        Token(manager.entries[q].toadGeneration, generation, manager.entries[q].desired);
      Observe(before);
    }

    /** One recovery. Its tokens carry the generation that a successful recovery closes. */
    method Recover(runtime: Runtime, identityOf: Prefix -> RouteId, parkOf: Prefix -> ParkId) returns (res: Result<()>)
      requires Base() && Truth() && open.None?
      modifies manager`entries, manager`disk, manager`diskGeneration, manager`kernel, manager`halted, manager`run
      modifies manager`frozen, manager`routeGeneration, `tokens, `sequence, `queue, `open, `doubt
      ensures manager.Valid() && open.None? && doubt <= old(doubt)
      ensures manager.halted || (Base() && Truth() && AtomicStep(old(Snap()), Snap()))
      ensures manager.frozen == res.Err?
      ensures var aim := Aim(Target(runtime, old(manager.routeGeneration)), identityOf, parkOf);
              manager.calm && manager.reliable && runtime.ifIndex > 0 && AllReady(aim, old(manager.World())) ==>
                && !manager.halted && (res.Ok? <==> AllMove(aim, old(manager.World())))
                && AllRecovered(aim, old(manager.World()), manager.World())
      ensures manager.entries.Keys == old(manager.entries).Keys
      ensures forall q <- tokens :: tokens[q].routeGeneration <= old(manager.routeGeneration)
      ensures res.Ok? ==> manager.routeGeneration == old(manager.routeGeneration) + 1
    {
      var before, generation := manager.kernel, manager.routeGeneration;
      res := manager.Recover(runtime, identityOf, parkOf);
      if manager.halted {
        return;
      }
      CloseRecovery(before, generation);
      doubt := {};
      RecoveryEnds();
    }

    // ----- events -----

    /** An event may act on the record of p: no recovery, quarantine or freeze owns it. */
    predicate Drivable(p: Prefix)
      requires p in manager.entries
      reads this, manager
    {
      && !quarantined
      && (manager.frozen ==> manager.restorePending)
      && (manager.restorePending ==> manager.entries[p].park.None?)
    }

    /** What an event about p comes to. */
    twostate predicate PrefixHandled(p: Prefix, new ok: bool)
      reads this, manager
    {
      if p in old(manager.entries) && old(Drivable(p)) then
        if old(manager.entries)[p].state == Retiring then Forgotten(p, ok)
        else && Driven(p, ok) && (ok ==> Verified(p))
             && (manager.calm && ok ==> manager.Rows(p) == {Route(old(manager.entries)[p].desired)})
      else
        ok && manager.entries == old(manager.entries) && manager.kernel == old(manager.kernel)
    }

    /** A prefix event: the record is driven through its canonical transaction, unless somebody else owns it. */
    method HandlePrefix(p: Prefix) returns (ok: bool)
      requires Base() && Truth() && open.None?
      modifies manager`entries, manager`disk, manager`diskGeneration, manager`kernel, manager`halted, manager`run
      modifies `tokens, `sequence, `queue, `open, `doubt
      ensures manager.Valid() && open.None? && doubt <= old(doubt) && (ok ==> !manager.halted)
      ensures manager.halted || (Base() && Truth() && AtomicStep(old(Snap()), Snap()))
      ensures p !in old(manager.entries) || !old(Drivable(p)) ==> Snap() == old(Snap())
      ensures PrefixHandled(p, ok)
    {
      assert forall q :: Untouched(Snap(), Snap(), q);
      if p !in manager.entries {
        return true;
      }
      var r := manager.entries[p];
      if manager.restorePending && r.park.Some? {
        return true;
      }
      if quarantined {
        return true;
      }
      if manager.frozen && !manager.restorePending {
        return true;
      }
      if r.state == Retiring {
        ok := Forget(p);
      } else {
        ok := Reconcile(p);
      }
    }

    /** Drops all tokens; that of an open call is still to be stored. */
    method ClearAll()
      requires Base()
      modifies `tokens, `doubt
      ensures tokens == map[] && doubt == {} && Base() && Truth()
    {
      tokens, doubt := map[], {};
    }

    /** Advances the processed sequence; it never goes back. */
    method Note(n: nat)
      requires Base() && Truth() && n <= sequence && (serial ==> open.None?)
      requires AllTruthful(Snap(), Max(processed, n), doubt)
      modifies `processed
      ensures processed == Max(old(processed), n) && Base() && Truth()
    {
      NoteKeepsTruth(Snap(), Max(processed, n), Max(processed, n), doubt);
      if n > processed {
        processed := n;
      }
      StayMatched();
    }

    // ----- audits -----

    /** Whatever else runs on the role while an audit does not hold its lock. */
    method OtherCalls(ghost a: Audit, ghost walking: bool, ghost todo: set<Prefix>, ghost late: set<Prefix>)
      requires Base() && Truth() && open.None? && AuditInv(a, Snap(), walking, todo, late)
      modifies manager`entries, manager`disk, manager`diskGeneration, manager`kernel, manager`halted, manager`run
      modifies manager`frozen, manager`routeGeneration, `tokens, `sequence, `queue, `open, `doubt
      ensures manager.Valid() && open.None? && doubt <= old(doubt)
      ensures manager.halted || (Base() && Truth() && AuditInv(a, Snap(), walking, todo, late))
    {
      var n: int := *;
      while n > 0
        invariant Base() && Truth() && open.None? && doubt <= old(doubt) && AuditInv(a, Snap(), walking, todo, late)
      {
        n := n - 1;
        ghost var s := Snap();
        OneCall();
        if manager.halted {
          return;
        }
        StepKeepsAudit(a, s, Snap(), walking, todo, late);
      }
    }

    method OneCall()
      requires Base() && Truth() && open.None?
      modifies manager`entries, manager`disk, manager`diskGeneration, manager`kernel, manager`halted, manager`run
      modifies manager`frozen, manager`routeGeneration, `tokens, `sequence, `queue, `open, `doubt
      ensures manager.Valid() && open.None? && doubt <= old(doubt)
      ensures manager.halted || (Base() && Truth() && AtomicStep(old(Snap()), Snap()))
    {
      var p: Prefix := *;
      if * {
        var zone: string, source: Source, runtime: Runtime, id: RouteId := *, *, *, *;
        var res := Ensure(p, zone, source, runtime, id);
      } else if * {
        var ok := Forget(p);
      } else if * {
        OutsideEdits();
      } else {
        var runtime: Runtime, identityOf: Prefix -> RouteId, parkOf: Prefix -> ParkId := *, *, *;
        var res := Recover(runtime, identityOf, parkOf);
      }
    }

    /** Reads the table until the sequence did not move around the read; such a snapshot is current. */
    method StableSnapshot(attempts: nat) returns (ok: bool, table: map<Prefix, set<Row>>)
      requires Base() && Truth()
      modifies manager`kernel, manager`run, `sequence, `queue, `open
      ensures Base() && Truth() && SameCall()
      ensures sequence >= old(sequence)
      ensures ok ==> forall q :: RowsIn(table, q) == manager.Rows(q)
      ensures manager.calm ==> manager.kernel == old(manager.kernel)
      ensures manager.calm && terse ==> Snap() == old(Snap()) && open == old(open)
      ensures manager.calm && terse && manager.reliable && attempts > 0 ==> ok
    {
      table := map[];
      for i := 0 to attempts
        invariant Base() && Truth() && SameCall() && sequence >= old(sequence)
        invariant manager.calm ==> manager.kernel == old(manager.kernel)
        invariant manager.calm && terse ==> Snap() == old(Snap()) && open == old(open)
        invariant manager.calm && terse && manager.reliable ==> i == 0
      {
        var before := sequence;
        var read, after;
        read, table, after := SampledRead();
        if !read {
          return false, table;
        }
        if before == after {
          return true, table;
        }
      }
      return false, table;
    }

    /** The call that is open, if any, is the same one. */
    twostate predicate SameCall()
      reads this`open
    {
      open.Some? == old(open).Some? && (open.Some? ==> open.value.prefix == old(open).value.prefix)
    }

    /** One read of the table, and the sequence afterwards. */
    method SampledRead() returns (ok: bool, table: map<Prefix, set<Row>>, after: nat)
      requires Base() && Truth()
      modifies manager`kernel, manager`run, `sequence, `queue, `open
      ensures Base() && Truth() && SameCall() && after == sequence >= old(sequence)
      ensures ok && after == old(sequence) ==> forall q :: RowsIn(table, q) == manager.Rows(q)
      ensures manager.calm ==> manager.kernel == old(manager.kernel)
      ensures manager.calm && terse ==> Snap() == old(Snap()) && open == old(open)
      ensures manager.reliable ==> ok
    {
      OutsideEdits();
      ok, table := true, manager.kernel;
      label Read:
      OutsideEdits();
      after := sequence;
      forall q ensures after == old@Read(sequence) ==> RowsIn(table, q) == manager.Rows(q) {
        assert after == old@Read(sequence) ==> manager.Rows(q) == old@Read(manager.Rows(q));
      }
      var answered := manager.Fallible();
      ok := answered;
      if !ok {
        table := *;
      }
    }

    /** Freezes the role for good and drops its tokens; no row is touched. */
    method Quarantine()
      requires Base()
      modifies manager`frozen, `tokens, `quarantined, `doubt
      ensures Base() && Truth() && manager.frozen && quarantined && tokens == map[] && doubt == {}
    {
      manager.Freeze();
      quarantined := true;
      ClearAll();
    }

    predicate Visitable(a: Audit, p: Prefix)
      reads manager
    {
      VisitableIn(a, manager.entries, manager.restorePending, p)
    }

    /** The snapshot shows the rows of p as they are. */
    predicate Shows(a: Audit, p: Prefix)
      reads manager`kernel
    {
      RowsIn(a.kernel, p) == manager.Rows(p)
    }

    /**
     What a visit comes to. It acts on its own prefix only; the record ends proven and, if nobody interferes, its
     row is the only one; it fails on a row that the planner rejects, and then the role is quarantined.
     */
    twostate predicate VisitHeld(a: Audit, p: Prefix, new ok: bool)
      requires p in old(manager.entries)
      reads this, manager
    {
      && (ok ==> && Verified(p) && quarantined == old(quarantined) && manager.frozen == old(manager.frozen)
                 && OnlyVisits(manager.calm, old(Snap()), Snap(), p))
      && (ok && manager.calm && old(Shows(a, p)) ==> manager.Rows(p) == {Route(manager.entries[p].desired)})
      && (manager.calm && manager.reliable && old(Shows(a, p)) ==>
            && !manager.halted && (ok <==> Accepts(old(manager.Rows(p)), old(manager.entries)[p]))
            && (!ok ==> quarantined && manager.frozen))
    }

    /** Refreshes, repairs or quarantines one record, working from the snapshot. */
    method VisitRecord(a: Audit, p: Prefix, ghost todo: set<Prefix>, ghost late: set<Prefix>) returns (ok: bool)
      requires Base() && Truth() && open.None? && AuditInv(a, Snap(), true, todo, late) && processed <= a.sequence
      requires Visitable(a, p)
      modifies manager`entries, manager`disk, manager`diskGeneration, manager`kernel, manager`halted, manager`run
      modifies manager`frozen, `tokens, `sequence, `queue, `quarantined, `open, `doubt
      ensures manager.Valid() && (ok ==> !manager.halted) && (manager.halted || (Base() && Truth()))
      ensures open.None? && doubt <= old(doubt)
      ensures Plan(RowsIn(a.kernel, p), old(manager.entries)[p]) == None ==>
                && !ok && quarantined && manager.frozen
                && manager.entries == old(manager.entries) && manager.kernel == old(manager.kernel)
      ensures ok ==> AuditInv(a, Snap(), true, todo - {p}, late)
      ensures VisitHeld(a, p, ok)
      ensures var r := old(manager.entries)[p];
              r.state == Active && RowsIn(a.kernel, p) == {Route(r.desired)} && Plan(RowsIn(a.kernel, p), r) != None ==>
                && ok && manager.entries == old(manager.entries) && manager.disk == old(manager.disk)
                && manager.kernel == old(manager.kernel) && queue == old(queue)
    {
      var r, rows := manager.entries[p], RowsIn(a.kernel, p);
      if Plan(rows, r) == None {
        Quarantine();
        return false;
      }
      if r.state == Active && rows == {Route(r.desired)} {
        MintFromSnapshot(a, p, todo, late);
        return true;
      }
      ok := Repair(a, p, todo, late);
    }

    /** The snapshot shows exactly the proven row: its token is refreshed without another read. */
    method MintFromSnapshot(a: Audit, p: Prefix, ghost todo: set<Prefix>, ghost late: set<Prefix>)
      requires Base() && Truth() && open.None? && AuditInv(a, Snap(), true, todo, late) && processed <= a.sequence
      requires Visitable(a, p) && manager.entries[p].state == Active
      requires RowsIn(a.kernel, p) == {Route(manager.entries[p].desired)}
      modifies `tokens, `doubt
      ensures Base() && Truth() && doubt <= old(doubt) && AuditInv(a, Snap(), true, todo - {p}, late)
      ensures Verified(p) && OnlyVisits(manager.calm, old(Snap()), Snap(), p)
    {
      var r := manager.entries[p];
      tokens := tokens[p := Token(r.toadGeneration, manager.routeGeneration, r.desired)];
      MintKeepsAudit(a, old(Snap()), Snap(), todo, late, doubt, p);
      doubt := doubt - {p};
      forall q ensures MatchedAt(q) { assert old(MatchedAt(q)); }
    }

    /** The record is driven through its transaction, and its token is truthful as of the snapshot. */
    method Repair(a: Audit, p: Prefix, ghost todo: set<Prefix>, ghost late: set<Prefix>) returns (ok: bool)
      requires Base() && Truth() && open.None? && AuditInv(a, Snap(), true, todo, late) && Visitable(a, p)
      modifies manager`entries, manager`disk, manager`diskGeneration, manager`kernel, manager`halted, manager`run
      modifies `tokens, `sequence, `queue, `open, `doubt
      ensures manager.Valid() && (ok ==> !manager.halted) && (manager.halted || (Base() && Truth()))
      ensures open.None? && doubt <= old(doubt) && Driven(p, ok)
      ensures ok ==> && AuditInv(a, Snap(), true, todo - {p}, late) && Verified(p)
                     && OnlyVisits(manager.calm, old(Snap()), Snap(), p)
    {
      ok := Reconcile(p);
      if ok {
        StepKeepsAudit(a, old(Snap()), Snap(), true, todo, late);
        VisitEnds(a, Snap(), todo, late, p);
      }
    }

    /**
     One visit of an audit. A record that changed since the walk began is skipped, a parked one belongs to the
     recovery, and while a startup restore is pending nothing is visited.
     */
    method Visit(a: Audit, p: Prefix, ghost todo: set<Prefix>, ghost late: set<Prefix>) returns (ok: bool, active: bool)
      requires Base() && Truth() && open.None? && AuditInv(a, Snap(), true, todo, late) && processed <= a.sequence
      requires p in a.entries
      modifies manager`entries, manager`disk, manager`diskGeneration, manager`kernel, manager`halted, manager`run
      modifies manager`frozen, `tokens, `sequence, `queue, `quarantined, `open, `doubt
      ensures manager.Valid() && (ok ==> !manager.halted) && (manager.halted || (Base() && Truth()))
      ensures open.None? && doubt <= old(doubt)
      ensures !old(Visitable(a, p)) ==> ok && Snap() == old(Snap()) && doubt == old(doubt)
      ensures p in old(manager.entries) && old(manager.entries)[p] == a.entries[p] ==>
                active == (a.entries[p].state == Active)
      ensures old(Visitable(a, p)) && Plan(RowsIn(a.kernel, p), old(manager.entries)[p]) == None ==>
                && !ok && quarantined && manager.frozen
                && manager.entries == old(manager.entries) && manager.kernel == old(manager.kernel)
      ensures ok ==> AuditInv(a, Snap(), true, if manager.restorePending then todo else todo - {p}, late)
      ensures old(Visitable(a, p)) ==> VisitHeld(a, p, ok)
    {
      if p !in manager.entries || manager.entries[p].state != a.entries[p].state
         || manager.entries[p].desired != a.entries[p].desired {
        VisitEnds(a, Snap(), todo, late, p);
        return true, false;
      }
      active := manager.entries[p].state == Active;
      if manager.entries[p].park.Some? {
        VisitEnds(a, Snap(), todo, late, p);
        return true, active;
      }
      if manager.restorePending {
        return true, active;
      }
      ok := VisitRecord(a, p, todo, late);
    }

    /** One turn of the walk: other calls, if there are any, and then the visit. */
    method WalkTurn(a: Audit, busy: bool, p: Prefix, ghost left: set<Prefix>, ghost late: set<Prefix>)
      returns (ok: bool, active: bool)
      requires Base() && Truth() && open.None? && AuditInv(a, Snap(), true, left, late) && processed <= a.sequence
      requires p in a.entries
      modifies manager`entries, manager`disk, manager`diskGeneration, manager`kernel, manager`halted, manager`run
      modifies manager`frozen, manager`routeGeneration, `tokens, `sequence, `queue, `quarantined, `open, `doubt
      ensures manager.Valid() && (ok ==> !manager.halted) && (manager.halted || (Base() && Truth()))
      ensures open.None? && doubt <= old(doubt)
      ensures ok ==> AuditInv(a, Snap(), true, if manager.restorePending then left else left - {p}, late)
      ensures !busy && !old(Visitable(a, p)) ==> ok && Snap() == old(Snap()) && doubt == old(doubt)
      ensures !busy && old(Visitable(a, p)) ==> VisitHeld(a, p, ok)
      ensures !busy && a.entries == old(manager.entries) ==> active == (a.entries[p].state == Active)
    {
      if busy {
        OtherCalls(a, true, left, late);
        if manager.halted {
          return false, false;
        }
      }
      ok, active := Visit(a, p, left, late);
    }

    /** The records that the audit is to visit. */
    function DueIn(a: Audit): set<Prefix>
      reads manager
    {
      DueOf(a, manager.entries, manager.restorePending)
    }

    /** One turn of an undisturbed walk, and what it leaves of the work that began in w0. */
    method WalkStep(a: Audit, busy: bool, p: Prefix, ghost left: set<Prefix>, ghost late: set<Prefix>,
                    ghost todo: set<Prefix>, ghost due: set<Prefix>, ghost w0: Stores)
      returns (ok: bool, active: bool)
      requires Base() && Truth() && open.None? && AuditInv(a, Snap(), true, left, late) && processed <= a.sequence
      requires p in a.entries && p in todo
      requires !busy ==> (p in due <==> Visitable(a, p)) && RowsIn(a.kernel, p) == w0.Rows(p)
      requires !busy ==> Walked(manager.calm, manager.reliable, todo, due, w0, Snap(), doubt)
      modifies manager`entries, manager`disk, manager`diskGeneration, manager`kernel, manager`halted, manager`run
      modifies manager`frozen, manager`routeGeneration, `tokens, `sequence, `queue, `quarantined, `open, `doubt
      ensures manager.Valid() && (ok ==> !manager.halted) && (manager.halted || (Base() && Truth()))
      ensures open.None? && doubt <= old(doubt)
      ensures ok ==> AuditInv(a, Snap(), true, if manager.restorePending then left else left - {p}, late)
      ensures !busy && p !in due ==> ok && Snap() == old(Snap()) && doubt == old(doubt)
      ensures !busy && ok ==> tokens.Keys <= old(tokens).Keys + {p}
      ensures !busy && a.entries == old(manager.entries) ==> active == (a.entries[p].state == Active)
      ensures !busy && ok ==> Walked(manager.calm, manager.reliable, todo - {p}, due, w0, Snap(), doubt)
      ensures !busy && manager.calm && manager.reliable ==>
                && !manager.halted
                && (!ok ==> && quarantined && manager.frozen && p in due && p in w0.entries
                            && !Accepts(w0.Rows(p), w0.entries[p]))
    {
      ghost var s, d := Snap(), doubt;
      assert !busy ==> WalkedAt(manager.calm, manager.reliable, todo, due, w0, s, d, p);
      ok, active := WalkTurn(a, busy, p, left, late);
      if !busy && ok {
        WalkAdvances(manager.calm, manager.reliable, todo, due, p, w0, s, Snap(), d, doubt);
      }
    }

    /** How far a walk has come that began in s0, with d0 in doubt. */
    ghost predicate Walking(a: Audit, busy: bool, late: set<Prefix>, todo: set<Prefix>, complete: bool, s0: State,
                            d0: set<Prefix>)
      reads this, manager
    {
      var due := DueOf(a, s0.role.stores.entries, manager.restorePending);
      && Base() && Truth() && open.None? && todo <= a.entries.Keys && processed <= a.sequence <= sequence && doubt <= d0
      && AuditInv(a, Snap(), true, if manager.restorePending then a.entries.Keys else todo, late)
      && (!busy ==> && (forall q :: RowsIn(a.kernel, q) == s0.role.stores.Rows(q))
                    && Walked(manager.calm, manager.reliable, todo, due, s0.role.stores, Snap(), doubt))
      && (!busy ==> tokens.Keys <= s0.view.tokens.Keys + due)
      && (!busy && due == {} ==> Snap() == s0 && doubt == d0)
      && (!busy && due == {} && a.entries == s0.role.stores.entries ==>
            complete == (a.entries != map[] && forall q <- a.entries :: q in todo || a.entries[q].state == Active))
    }

    /** The walk stopped at p: it failed or, with nothing failing, the planner rejected its rows. */
    ghost predicate Stopped(a: Audit, busy: bool, s0: State, d0: set<Prefix>, p: Prefix)
      reads this, manager
    {
      var due := DueOf(a, s0.role.stores.entries, manager.restorePending);
      && manager.Valid() && (manager.halted || (Base() && Truth())) && open.None? && doubt <= d0
      && (!busy ==> due != {})
      && (!busy && manager.calm && manager.reliable ==>
            && !manager.halted && quarantined && manager.frozen && p in due && p in s0.role.stores.entries
            && !Accepts(s0.role.stores.Rows(p), s0.role.stores.entries[p]))
    }

    /** The next turn of the walk. */
    method WalkOn(a: Audit, busy: bool, ghost late: set<Prefix>, todo: set<Prefix>, complete: bool, p: Prefix,
                  ghost s0: State, ghost d0: set<Prefix>)
      returns (ok: bool, complete': bool)
      requires Walking(a, busy, late, todo, complete, s0, d0) && p in todo
      modifies manager`entries, manager`disk, manager`diskGeneration, manager`kernel, manager`halted, manager`run
      modifies manager`frozen, manager`routeGeneration, `tokens, `sequence, `queue, `quarantined, `open, `doubt
      ensures ok ==> !manager.halted && Walking(a, busy, late, todo - {p}, complete', s0, d0)
      ensures !ok ==> Stopped(a, busy, s0, d0, p)
    {
      ghost var due := DueOf(a, s0.role.stores.entries, manager.restorePending);
      ghost var left := if manager.restorePending then a.entries.Keys else todo;
      assert !busy ==> (p in due <==> Visitable(a, p)) by {
        assert !busy ==> WalkedAt(manager.calm, manager.reliable, todo, due, s0.role.stores, Snap(), doubt, p);
      }
      var active;
      ok, active := WalkStep(a, busy, p, left, late, todo, due, s0.role.stores);
      complete' := complete && active;
    }

    /** Visits every record of the role; other calls run in between. */
    method Walk(a: Audit, busy: bool, ghost late: set<Prefix>) returns (ok: bool, complete: bool, ghost culprit: Prefix)
      requires Base() && Truth() && open.None? && processed <= a.sequence
      requires AuditInv(a, Snap(), true, a.entries.Keys, late)
      requires !busy ==> forall q :: RowsIn(a.kernel, q) == manager.Rows(q)
      modifies manager`entries, manager`disk, manager`diskGeneration, manager`kernel, manager`halted, manager`run
      modifies manager`frozen, manager`routeGeneration, `tokens, `sequence, `queue, `quarantined, `open, `doubt
      ensures ok ==> !manager.halted && Walking(a, busy, late, {}, complete, old(Snap()), old(doubt))
      ensures !ok ==> Stopped(a, busy, old(Snap()), old(doubt), culprit)
    {
      var todo := a.entries.Keys;
      ghost var s0, d0 := Snap(), doubt;
      ok, complete, culprit := true, todo != {}, manager.probe;
      WalkStarts(a, busy, late);
      while todo != {}
        invariant Walking(a, busy, late, todo, complete, s0, d0) && !manager.halted && ok
        decreases |todo|
      {
        var p :| p in todo;
        culprit := p;
        ok, complete := WalkOn(a, busy, late, todo, complete, p, s0, d0);
        if !ok {
          return;
        }
        todo := todo - {p};
      }
    }

    lemma WalkStarts(a: Audit, busy: bool, late: set<Prefix>)
      requires Base() && Truth() && open.None? && processed <= a.sequence
      requires AuditInv(a, Snap(), true, a.entries.Keys, late)
      requires !busy ==> forall q :: RowsIn(a.kernel, q) == manager.Rows(q)
      ensures Walking(a, busy, late, a.entries.Keys, a.entries.Keys != {}, Snap(), doubt)
    {
    }

    predicate RestoreComplete()
      reads this, manager
    {
      IsRestored(State(View(tokens, processed, sequence, queue),
                       Role(Stores(manager.entries, manager.kernel), manager.routeGeneration, manager.frozen)))
    }

    /** Neither records, rows, tokens nor events changed. */
    ghost predicate Unvisited(s: State, s': State)
    {
      && s'.view == s.view.(processed := s'.view.processed)
      && s'.role == s.role.(frozen := s'.role.frozen)
    }

    /** The registry as a snapshot may show it: the record of an open call as it was just before it was proven. */
    function Shown(): map<Prefix, SelectedRoute>
      requires open.Some? ==> open.value.prefix in manager.entries
      reads this, manager
    {
      if open.None? then manager.entries
      else manager.entries[open.value.prefix := manager.entries[open.value.prefix].(state := Applying)]
    }

    /** The open call is on the only record of the role. */
    predicate OnlyOpen()
      reads this, manager
    {
      open.Some? && manager.entries.Keys == {open.value.prefix} && !manager.restorePending
    }

    /** The unparked records but these, if no restore is pending. */
    function Unparked(but: set<Prefix>): set<Prefix>
      reads manager
    {
      set q | q in manager.entries && manager.entries[q].park.None? && !manager.restorePending && q !in but
    }

    /** The records that an audit is to visit; one that it sees in the middle of a call is not among them. */
    function Due(early: bool): set<Prefix>
      reads this, manager
    {
      Unparked(if early then OpenPrefix() else {})
    }

    /**
     What an undisturbed audit comes to. After a successful one every record that was due is proven, with its
     token, and its row is the only one; all other records are as they were. With nothing failing it succeeds
     exactly when the planner accepts the rows of every due record, and otherwise the role is quarantined.
     */
    twostate predicate AuditHeld(due: set<Prefix>, sure: bool, new ok: bool)
      requires due <= old(manager.entries).Keys
      reads this, manager
    {
      && (ok ==> Walked(manager.calm, sure, {}, due, old(manager.World()), Snap(), doubt))
      && (manager.calm && sure && !ok ==>
            && !manager.halted && quarantined && manager.frozen
            && exists q <- due :: !Accepts(old(manager.Rows(q)), old(manager.entries)[q]))
    }

    /** The due records are those that the walk finds visitable. */
    lemma VisitableIsDue(a: Audit, hidden: set<Prefix>)
      requires a.entries.Keys == manager.entries.Keys && hidden <= a.entries.Keys
      requires forall q <- a.entries :: if q in hidden then a.entries[q].state != manager.entries[q].state
                                        else a.entries[q] == manager.entries[q]
      ensures DueIn(a) == Unparked(hidden)
    {
    }

    /** Nothing fails and nobody else interferes. */
    predicate Undisturbed(attempts: nat, busy: bool) {
      manager.calm && manager.reliable && terse && attempts > 0 && !busy
    }

    /** The audit saw the open call before it proved its record, and the call stored its token later. */
    twostate predicate LateCall()
      requires old(open).Some?
      reads this, manager
    {
      var p := old(open).value.prefix;
      && manager.entries == old(manager.entries) && manager.kernel == old(manager.kernel)
      && manager.frozen == old(manager.frozen) && manager.routeGeneration == old(manager.routeGeneration)
      && sequence == old(sequence) && queue == old(queue)
      && p in manager.entries
      && var r := manager.entries[p];
         tokens == old(tokens)[p := Token(r.toadGeneration, manager.routeGeneration, r.desired)]
    }

    /**
     One full audit: `attempts` reads before the deadline, with or without other calls in between. `early` says
     that its registry snapshot may show the record of a running call before it is proven. Its sequence is
     published only if every visit succeeded. Then nothing is in doubt but the prefix of a call that was open
     when the audit took its snapshots.
     */
    method RunAudit(attempts: nat, busy: bool, early: bool) returns (ok: bool)
      requires Base() && Truth() && (serial ==> open.None?)
      modifies manager`entries, manager`disk, manager`diskGeneration, manager`kernel, manager`halted, manager`run
      modifies manager`frozen, manager`routeGeneration, manager`restorePending
      modifies `tokens, `sequence, `queue, `quarantined, `open, `doubt, `processed
      ensures manager.Valid() && (manager.halted || (Base() && Truth()))
      ensures ok ==> !manager.halted && open.None?
      ensures !old(manager.restorePending) ==> !manager.restorePending
      ensures ok && !old(manager.restorePending) ==> doubt <= if early then old(OpenPrefix()) else {}
      ensures if ok then processed >= old(sequence) else processed == old(processed)
      ensures !ok && !manager.halted ==> doubt == {} && tokens == map[]
      ensures old(manager.restorePending) && old(open).None? && Undisturbed(attempts, busy) ==>
                && ok && Unvisited(old(Snap()), Snap()) && processed == sequence
                && (if old(manager.entries) != map[] && old(RestoreComplete())
                    then !manager.frozen && !manager.restorePending
                    else manager.frozen == old(manager.frozen) && manager.restorePending)
      ensures old(OnlyOpen()) && early && Undisturbed(attempts, busy) ==> ok && LateCall() && processed == sequence
      ensures !busy ==> AuditHeld(old(Due(early)), Undisturbed(attempts, busy), ok)
      ensures !busy && ok ==> tokens.Keys <= old(tokens).Keys + old(Due(early)) + old(OpenPrefix())
    {
      var table;
      ok, table := StableSnapshot(attempts);
      if !ok {
        ClearAll();
        return;
      }
      ghost var w, due := manager.World(), Due(early);
      ok := AuditFrom(table, busy, early, due);
      if !busy && ok {
        WalkedSince(manager.calm, manager.reliable, Undisturbed(attempts, busy), due, old(manager.World()), w, Snap(), doubt);
      }
    }

    /** The rest of an audit, once it has a stable snapshot. */
    method AuditFrom(table: map<Prefix, set<Row>>, busy: bool, early: bool, ghost due: set<Prefix>) returns (ok: bool)
      requires Base() && Truth() && (serial ==> open.None?) && forall q :: RowsIn(table, q) == manager.Rows(q)
      requires due == Due(early)
      modifies manager`entries, manager`disk, manager`diskGeneration, manager`kernel, manager`halted, manager`run
      modifies manager`frozen, manager`routeGeneration, manager`restorePending
      modifies `tokens, `sequence, `queue, `quarantined, `open, `doubt, `processed
      ensures manager.Valid() && (manager.halted || (Base() && Truth()))
      ensures ok ==> !manager.halted && open.None?
      ensures !old(manager.restorePending) ==> !manager.restorePending
      ensures ok && !old(manager.restorePending) ==> doubt <= if early then old(OpenPrefix()) else {}
      ensures if ok then processed == old(sequence) else processed == old(processed)
      ensures !ok && !manager.halted ==> doubt == {} && tokens == map[]
      ensures old(manager.restorePending) && !busy && old(open).None? ==>
                && ok && Unvisited(old(Snap()), Snap())
                && (if old(manager.entries) != map[] && old(RestoreComplete())
                    then !manager.frozen && !manager.restorePending
                    else manager.frozen == old(manager.frozen) && manager.restorePending)
      ensures old(OnlyOpen()) && early && !busy ==> ok && LateCall()
      ensures !busy ==> AuditHeld(due, manager.reliable, ok)
      ensures !busy && ok ==> tokens.Keys <= old(tokens).Keys + due + old(OpenPrefix())
    {
      var a;
      ghost var late;
      a, late := TakeRecords(table, busy, early);
      if manager.halted {
        return false;
      }
      ok := AuditRecords(a, busy, late);
    }

    /** How an audit ended whose walk began in s0, with or without a restore pending. */
    ghost predicate Ended(a: Audit, busy: bool, late: set<Prefix>, s0: State, pending: bool, ok: bool)
      reads this, manager
    {
      var due := DueOf(a, s0.role.stores.entries, pending);
      && manager.Valid() && (manager.halted || (Base() && Truth())) && open.None? && (ok ==> !manager.halted)
      && (!pending ==> !manager.restorePending && (ok ==> doubt <= late))
      && processed == (if ok then a.sequence else s0.view.processed)
      && (!ok && !manager.halted ==> doubt == {} && tokens == map[])
      && (!busy && due == {} ==> ok && Unvisited(s0, Snap()) && (!pending ==> manager.frozen == s0.role.frozen))
      && (!busy && pending && a.entries == s0.role.stores.entries ==>
            if a.entries != map[] && IsRestored(s0) then !manager.frozen && !manager.restorePending
            else manager.frozen == s0.role.frozen && manager.restorePending)
      && (!busy && ok ==> && Walked(manager.calm, manager.reliable, {}, due, s0.role.stores, Snap(), doubt)
                          && tokens.Keys <= s0.view.tokens.Keys + due)
      && (!busy && manager.calm && manager.reliable && !ok ==>
            && !manager.halted && quarantined && manager.frozen
            && exists q <- due :: q in s0.role.stores.entries && !Accepts(s0.role.stores.Rows(q), s0.role.stores.entries[q]))
    }

    /** The walk over the records, and the publication of the sequence. */
    method AuditRecords(a: Audit, busy: bool, ghost late: set<Prefix>) returns (ok: bool)
      requires Base() && Truth() && open.None? && processed <= a.sequence && (late != {} ==> !serial)
      requires AuditInv(a, Snap(), true, a.entries.Keys, late) && DueIn(a) !! late
      requires !busy ==> forall q :: RowsIn(a.kernel, q) == manager.Rows(q)
      modifies manager`entries, manager`disk, manager`diskGeneration, manager`kernel, manager`halted, manager`run
      modifies manager`frozen, manager`routeGeneration, manager`restorePending
      modifies `tokens, `sequence, `queue, `quarantined, `open, `doubt, `processed
      ensures Ended(a, busy, late, old(Snap()), old(manager.restorePending), ok)
    {
      ghost var s0, d0 := Snap(), doubt;
      var complete;
      ghost var culprit;
      ok, complete, culprit := Walk(a, busy, late);
      if ok {
        Conclude(a, busy, late, complete, s0, d0);
      } else {
        Abandon(a, busy, late, s0, d0, culprit);
      }
    }

    /** A walk that stopped: no token is kept, and no sequence is published. */
    method Abandon(a: Audit, busy: bool, ghost late: set<Prefix>, ghost s0: State, ghost d0: set<Prefix>, ghost p: Prefix)
      requires Stopped(a, busy, s0, d0, p) && processed == s0.view.processed
      modifies `tokens, `doubt
      ensures Ended(a, busy, late, s0, manager.restorePending, false)
    {
      if !manager.halted {
        ClearAll();
      }
    }

    /** Publishes the sequence of a successful walk that began in s0; what the walk achieved stands. */
    method Conclude(a: Audit, busy: bool, ghost late: set<Prefix>, complete: bool, ghost s0: State, ghost d0: set<Prefix>)
      requires Walking(a, busy, late, {}, complete, s0, d0) && !manager.halted && (late != {} ==> !serial)
      requires DueOf(a, s0.role.stores.entries, manager.restorePending) !! late
      modifies manager`frozen, manager`restorePending, `doubt, `processed
      ensures Ended(a, busy, late, s0, old(manager.restorePending), true)
    {
      ghost var due := DueOf(a, s0.role.stores.entries, manager.restorePending);
      ghost var s, d := Snap(), doubt;
      if !manager.restorePending {
        AuditEnds(a, s, late);
      }
      Publish(a.sequence, complete, late);
      if !busy {
        WalkEnds(manager.calm, manager.reliable, due, s0.role.stores, s, Snap(), d, doubt);
      }
    }

    /**
     The registry snapshot of an audit. A call that was open at the kernel snapshot ends before it or, if the
     snapshot still shows its record unproven, right after it; other calls may come in between.
     */
    method TakeRecords(table: map<Prefix, set<Row>>, busy: bool, early: bool) returns (a: Audit, ghost late: set<Prefix>)
      requires Base() && Truth() && (serial ==> open.None?) && forall q :: RowsIn(table, q) == manager.Rows(q)
      modifies manager`entries, manager`disk, manager`diskGeneration, manager`kernel, manager`halted, manager`run
      modifies manager`frozen, manager`routeGeneration, `tokens, `sequence, `queue, `open, `doubt
      ensures manager.Valid() && (!busy ==> !manager.halted) && (late != {} ==> !serial)
      ensures late == if early then old(OpenPrefix()) else {}
      ensures a.sequence == old(sequence) && a.kernel == table
      ensures manager.halted || (Base() && Truth() && open.None? && AuditInv(a, Snap(), true, a.entries.Keys, late))
      ensures manager.halted || DueIn(a) !! late
      ensures !busy ==> && manager.entries == old(manager.entries) && manager.kernel == old(manager.kernel)
                        && DueIn(a) == old(Due(early))
      ensures !busy && (old(open).None? || !early) ==> a.entries == manager.entries
      ensures !busy && early ==> a.entries == old(Shown())
      ensures !busy && old(open).None? ==> Snap() == old(Snap()) && doubt == old(doubt)
      ensures !busy ==> tokens.Keys <= old(tokens).Keys + old(OpenPrefix())
      ensures !busy && early && old(open).Some? ==> LateCall()
    {
      ghost var snapshot := Audit(table, sequence, map[]);
      AuditBegins(snapshot, Snap());
      late := {};
      if open.Some? && early {
        a, late := TakeRecordsLate(table, busy);
        VisitableIsDue(a, late);
        return;
      }
      var at := sequence;
      if open.Some? {
        ghost var s := Snap();
        Finish();
        LateMintKeepsAudit(snapshot, s, Snap(), false, {}, {}, old(open).value.prefix);
      }
      if busy {
        OtherCalls(snapshot, false, {}, {});
        if !manager.halted && early && !serial {
          a := TakeRecordsDuringCall(table, at);
          return;
        }
      }
      a := Audit(table, at, manager.entries);
      if !manager.halted {
        WalkBegins(snapshot, Snap(), a, manager.probe, {});
        VisitableIsDue(a, {});
      }
    }

    /** The registry snapshot falls between the kernel snapshot and the end of a call that began before both. */
    method TakeRecordsLate(table: map<Prefix, set<Row>>, busy: bool) returns (a: Audit, ghost late: set<Prefix>)
      requires Base() && Truth() && open.Some? && forall q :: RowsIn(table, q) == manager.Rows(q)
      modifies manager`kernel, manager`run, `tokens, `sequence, `queue, `open, `doubt
      ensures Base() && Truth() && open.None? && late == old(OpenPrefix()) && a.sequence == old(sequence)
      ensures AuditInv(a, Snap(), true, a.entries.Keys, late) && a.entries == old(Shown()) && a.kernel == table
      ensures manager.entries == old(manager.entries) && DueIn(a) !! late
      ensures !busy ==> LateCall()
    {
      var p := open.value.prefix;
      ghost var snapshot := Audit(table, sequence, map[]);
      AuditBegins(snapshot, Snap());
      a, late := Audit(table, sequence, Shown()), {p};
      assert Shown() - {p} == manager.entries - {p};
      WalkBegins(snapshot, Snap(), a, p, late);
      ghost var s := Snap();
      if busy {
        OutsideEdits();
        StepKeepsAudit(a, s, Snap(), true, a.entries.Keys, late);
        s := Snap();
      }
      Finish();
      LateMintKeepsAudit(a, s, Snap(), true, a.entries.Keys, late, p);
    }

    /** The registry snapshot falls into a call that began after the kernel snapshot: that call is not late. */
    method TakeRecordsDuringCall(table: map<Prefix, set<Row>>, at: nat) returns (a: Audit)
      requires Base() && Truth() && open.None? && AuditInv(Audit(table, at, map[]), Snap(), false, {}, {})
      modifies manager`entries, manager`disk, manager`diskGeneration, manager`kernel, manager`halted, manager`run
      modifies `tokens, `sequence, `queue, `open, `doubt
      ensures manager.Valid() && a.sequence == at && a.kernel == table && doubt <= old(doubt)
      ensures manager.halted || (Base() && Truth() && open.None? && AuditInv(a, Snap(), true, a.entries.Keys, {}))
    {
      var p: Prefix, zone: string, source: Source, runtime: Runtime, id: RouteId := *, *, *, *, *;
      ghost var snapshot, s := Audit(table, at, map[]), Snap();
      var res := Begin(p, zone, source, runtime, id);
      a := Audit(table, at, if manager.halted then map[] else Shown());
      if manager.halted {
        return;
      }
      StepKeepsAudit(snapshot, s, Snap(), false, {}, {});
      assert res.Ok? ==> Shown() - {p} == manager.entries - {p};
      WalkBegins(snapshot, Snap(), a, p, {});
      if open.Some? {
        s := Snap();
        Settle();
        StepKeepsAudit(a, s, Snap(), true, a.entries.Keys, {});
      }
    }

    /**
     Ends a successful audit. While a startup restore is pending nothing was visited, and a late call was not
     visited either: their overlooked tokens are in doubt from now on, and if the role is opened here, all are.
     */
    method Publish(at: nat, complete: bool, ghost late: set<Prefix>)
      requires Base() && Truth() && open.None? && processed <= at <= sequence && (late != {} ==> !serial)
      requires manager.restorePending || AllTruthful(Snap(), at, late)
      modifies manager`frozen, manager`restorePending, `doubt, `processed
      ensures Base() && Truth() && processed == at
      ensures if old(manager.restorePending) && complete && old(RestoreComplete())
              then !manager.frozen && !manager.restorePending
              else manager.frozen == old(manager.frozen) && manager.restorePending == old(manager.restorePending)
      ensures doubt == if old(manager.frozen) && !manager.frozen then tokens.Keys
                       else (if old(manager.restorePending) then old(doubt) else old(doubt) * late) +
                            Missed(old(Snap()), old(manager.restorePending), at, late)
    {
      doubt := (if manager.restorePending then doubt else doubt * late) + Missed(Snap(), manager.restorePending, at, late);
      DoubtSuffices(Snap(), manager.restorePending, at, late, old(doubt), doubt);
      if manager.restorePending && complete && RestoreComplete() {
        if manager.frozen {
          doubt := tokens.Keys;
        }
        manager.EndStartupRestore();
        assert forall q :: MatchedAt(q);
      } else {
        StayMatched();
      }
      Note(at);
    }

    // ----- batches -----

    /** Drains the first n events into one batch and clears every token in its scope. */
    method TakeBatch(n: nat) returns (batch: Event)
      requires Base() && Truth() && 0 < n <= |queue| && (serial ==> open.None?)
      modifies `queue, `tokens
      ensures Base() && Truth() && batch.sequence == old(queue)[n - 1].sequence == sequence - |queue|
      ensures batch == Fold(old(queue)[0], old(queue)[1..n]) && queue == old(queue)[n..]
      ensures forall q :: q in tokens <==> q in old(tokens) && !Clears(batch.scope, q, old(tokens)[q].identity)
    {
      ghost var s := Snap();
      BatchSequence(s.view, n);
      DequeueKeepsTruth(s, n, doubt);
      batch := Debounce(queue[0], queue[1..n]);
      queue := queue[n..];
      tokens := map q | q in tokens && !Clears(batch.scope, q, tokens[q].identity) :: tokens[q];
      assert Snap().view == Dequeued(s.view, n);
      StayMatched();
    }

    /**
     What a batch comes to. Events about one prefix act on its record; events about one link only clear the
     tokens of that link; anything else is an audit.
     */
    twostate predicate BatchHandled(n: nat, attempts: nat, busy: bool, early: bool, new ok: bool)
      requires 0 < n <= |old(queue)|
      reads this, manager
    {
      if IsUniform(old(queue), n) && old(queue)[0].scope.OnePrefix? then
        PrefixHandled(old(queue)[0].scope.prefix, ok)
      else if IsUniform(old(queue), n) && old(queue)[0].scope.OneInterface? then
        && ok && manager.entries == old(manager.entries) && manager.kernel == old(manager.kernel) && open == old(open)
        && forall q :: q in tokens <==>
                         q in old(tokens) && old(tokens)[q].identity.ifIndex != old(queue)[0].scope.ifIndex
      else
        && (!busy ==> AuditHeld(old(Due(early)), Undisturbed(attempts, busy), ok))
        && (!busy && ok ==> tokens.Keys <= old(Due(early)) + old(OpenPrefix()))
    }

    /**
     Processes the events that arrived in one debounce window. Its sequence is published only if the batch
     was handled; a failed batch leaves the fast path shut until an audit succeeds. A link event takes no lock,
     so an open call stays open; a prefix event waits for it after it has cleared the token.
     */
    method HandleEventBatch(n: nat, attempts: nat, busy: bool, early: bool) returns (ok: bool)
      requires Base() && Truth() && 0 < n <= |queue| && (serial ==> open.None?)
      modifies manager`entries, manager`disk, manager`diskGeneration, manager`kernel, manager`halted, manager`run
      modifies manager`frozen, manager`routeGeneration, manager`restorePending
      modifies `tokens, `sequence, `queue, `quarantined, `open, `doubt, `processed
      ensures manager.Valid() && (manager.halted || (Base() && Truth()))
      ensures if ok then processed >= old(queue)[n - 1].sequence else processed == old(processed)
      ensures !old(manager.restorePending) && old(open).None? && !manager.halted ==>
                !manager.restorePending && doubt <= old(doubt)
      ensures BatchHandled(n, attempts, busy, early, ok)
    {
      BatchScope(Snap().view, n);
      var batch := TakeBatch(n);
      match batch.scope {
        case OnePrefix(p) =>
          ok := HandlePrefixBatch(p, batch.sequence);
        case OneInterface(_) =>
          ok := true;
          NoteTaken(batch.sequence);
        case Everything =>
          ok := HandleEverything(batch.sequence, attempts, busy, early);
      }
    }

    /** Events about several scopes: no token is kept, and an audit runs. */
    method HandleEverything(n: nat, attempts: nat, busy: bool, early: bool) returns (ok: bool)
      requires Base() && Truth() && n <= sequence - |queue| && (serial ==> open.None?)
      modifies manager`entries, manager`disk, manager`diskGeneration, manager`kernel, manager`halted, manager`run
      modifies manager`frozen, manager`routeGeneration, manager`restorePending
      modifies `tokens, `sequence, `queue, `quarantined, `open, `doubt, `processed
      ensures manager.Valid() && (manager.halted || (Base() && Truth()))
      ensures if ok then processed >= n else processed == old(processed)
      ensures !old(manager.restorePending) && old(open).None? && !manager.halted ==> !manager.restorePending && doubt == {}
      ensures !busy ==> AuditHeld(old(Due(early)), Undisturbed(attempts, busy), ok)
      ensures !busy && ok ==> tokens.Keys <= old(Due(early)) + old(OpenPrefix())
    {
      ClearAll();
      ok := RunAudit(attempts, busy, early);
      if ok {
        ghost var s := Snap();
        Note(n);
        if !busy {
          WalkEnds(manager.calm, Undisturbed(attempts, busy), old(Due(early)), old(manager.World()), s, Snap(), doubt, doubt);
        }
      }
    }

    /** Publishes a sequence whose events have all been taken off the channel. */
    method NoteTaken(n: nat)
      requires Base() && Truth() && n <= sequence - |queue| && (serial ==> open.None?)
      modifies `processed
      ensures processed == Max(old(processed), n) && Base() && Truth()
    {
      if n > processed {
        TakenMayBePublished(Snap(), n, doubt);
      }
      Note(n);
    }

    /** A prefix event whose token is cleared already: it waits for the lock, handles the record, and is published. */
    method HandlePrefixBatch(p: Prefix, n: nat) returns (ok: bool)
      requires Base() && Truth() && n <= sequence - |queue|
      modifies manager`entries, manager`disk, manager`diskGeneration, manager`kernel, manager`halted, manager`run
      modifies `tokens, `sequence, `queue, `open, `doubt, `processed
      ensures manager.Valid() && (manager.halted || (Base() && Truth()))
      ensures doubt <= old(doubt) + old(OpenPrefix())
      ensures if ok then processed == Max(old(processed), n) else processed == old(processed)
      ensures PrefixHandled(p, ok)
    {
      if open.Some? {
        Finish();
      }
      ok := HandlePrefix(p);
      if ok {
        NoteTaken(n);
      }
    }

    /** The process starts again: nothing is verified yet, and the observer counts from the beginning. */
    method Restart()
      requires manager.Valid()
      modifies manager`entries, manager`halted, manager`frozen, manager`restorePending, manager`routeGeneration
      modifies manager`run, `tokens, `processed, `sequence, `queue, `quarantined, `restored, `open, `doubt
      ensures Base() && Truth() && doubt == {} && tokens == map[] && open == None && manager.entries == manager.disk
      ensures manager.frozen == manager.restorePending == restored == (manager.disk != map[])
    {
      manager.Restart();
      tokens, processed, sequence, queue, quarantined := map[], 0, 0, [], false;
      restored, doubt, open := manager.restorePending, {}, None;
    }
  }
}
