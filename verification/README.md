# Kikimora: a verified model of the managed selected-route core

Kikimora's controller owns the routes of selected destinations. For every destination it must keep three
stores in step: the in-memory registry, the checkpoint file of the role, and the kernel's route rows. They
fail differently: a crash loses the first, never the second, and does not touch the third. This project models
that transaction system and the product controller around it in Dafny, and proves what they promise for every
input and every run: a crash after any step of the durable protocol, and for the fast path every order of calls,
events, audits and outside edits, where a call is one step up to its read-back and storing its token is another.

`dafny verify dfyconfig.toml` checks the whole project.

## How it is built

| file | content |
|---|---|
| `Identity.dfy`, `Addressing.dfy` | exact kernel identities, and what prefixes and identities mean in terms of the addresses they cover |
| `Records.dfy` | the record of one prefix with its two coupled machines, selected route and park |
| `Planner.dfy` | the reconciliation planner: a loop over a row list against a multiset specification |
| `Protocol.dfy` | the durable protocol of one prefix as a transition system over memory, disk and kernel, and the theorems about every run |
| `Stages.dfy`, `Recovery.dfy` | what each recovery step does to one prefix, and end-to-end recovery |
| `SelectedRoutes.dfy` | `SelectedRouteManager`: the transactions, parking, restoration, recovery, Ensure and flush of one role, in place |
| `Observation.dfy`, `FastPath.dfy`, `Reconciler.dfy` | event debouncing, the token cache of the fast path, events and audits around the manager |
| `Scenario.dfy` | two runs of public calls in which the fast path answers for a missing row |
| `Registry.dfy` | the registry over all roles, its checkpoints and their round trip |
| `Gate.dfy` | admission, the in-flight count and the draining freeze |
| `Netstate.dfy`, `Controller.dfy`, `Products.dfy` | underlay epochs, the product controller, and the epoch lockstep |
| `Engine.dfy` | the recovery engine: choice of action, step order, publication, cancellation, and how the controller steers it |

**One probe prefix.** `SelectedRouteManager` carries a ghost constant `probe`, an arbitrary prefix, and a ghost
`run`, the history of that prefix. Every primitive step of every method, also on its error paths, must be a step
of the protocol in `Protocol.dfy`; `Valid()` says so. The run theorems therefore apply to whatever the methods do,
and since the probe is arbitrary, to every prefix. A contract about the checkpointed copy of one record speaks of the
probe for the same reason.

**Three switches.** `reliable` says that no platform call, checkpoint write or failpoint fails. `calm` says that
nobody else edits the kernel while a call is running (an edit placed explicitly after its read-back is `Edit`),
and `quiet` that nobody else ever does. No
orphan rows, no orphan parks and write-ahead need none of them. "Never bare" and retirement confluence need `quiet`.
Statements about the exact rows after one call need `calm`, and if-and-only-if statements about success need
`calm` and `reliable`.

**Fail-stop storage.** A failed checkpoint write or a failpoint error ends the process (`halted`); only `Restart`
can follow. The write may or may not have reached the disk.

**Marks.** A run carries marks of what happened to its evidence. `lost` is the set of identities that a
re-reservation dropped while they were in flight and unproven, or that the checkpoint did not name when the process
died; proving such a row again takes its identity out of the set. `ahead`: the kernel was written under an identity
that the checkpoint does not name yet; the next checkpoint clears it. `parkLost` is the set of parks that were taken
off the record without a delete. `moved`: an identity in flight changed. The theorems say which marks they exclude,
each mark is set by a condition on the record, and runs show that rows and parks really are orphaned without them.

**Doubt.** The fast path is not exact in the code. The ghost set `doubt` holds the prefixes whose token may outlive
the event that should have cleared it, and the fast-path theorem excludes exactly these. There are two ways into it,
and for each the exact condition is proved and a run is given.

- An audit publishes its sequence without having visited a record. While a startup restore is pending it visits none
  (`Scenario.AnswersForMissingRow`; the answer is also wrong after that restore has ended, because the same audit may
  end it). A record whose call was still running at both snapshots of the audit is skipped because it has changed
  (`Scenario.AnswersAfterLateMint`, in a process that started empty). Publishing is sound on every kernel if and only
  if no token that was not visited is `Overlooked`. If such an audit opens a frozen role, all its tokens are in doubt.
- A token is stored after an event that clears it was handled. A link event takes no lock, so it can come between the
  read-back and the token (`FastPath.MintAfterLinkEvent`). Storing the token is sound on every kernel if and only if
  it was not `Overtaken`.

A token leaves `doubt` when it is stored again after a proof; a successful audit empties it, but for a call that was
running at its snapshots. The switch `serial` says that events and audit snapshots wait for the running call. With
it, `doubt` stays empty in a process that started without records (`restored` is false).

## Decisions where the code needs reading

- Registry snapshots share the park object with the registry, so the record that the park calls receive already
  shows the park transition made just before the call. Passing the current record by value has the same effect.
- The platform writer is modelled on the Linux one.
- A kernel change is atomic per system call. The kernel holds no two identical rows of one prefix; the planner is
  proved for duplicates as well.
- Where comments and code disagree the model follows the code: a durable ParkApplying record cannot progress;
  only a changed identity, not a changed generation, demotes an Active record; an audit that meets a Retiring
  record quarantines the role; a restoration skips records already on the interface although their rows were
  withdrawn; a Pending park is cleared without a delete; opening a role does not end a pending restore.
- A live token is judged with the role's freeze and generation: tokens made while a role is frozen belong to the
  generation that the unfreeze closes.
- Storing a token is a step of its own after the read-back (`open` is the call in between, which holds the lock of
  the role). Outside edits, link events, the clearing of tokens by other events and both snapshots of an audit may
  fall in between; what needs the lock waits. Other calls may also run between an audit's kernel snapshot, its
  registry snapshot and its visits, and the registry snapshot may fall into such a call.
- The model assumes that a call is one step up to its read-back, and that its own events are raised by then: no
  snapshot of an audit and no event handling falls inside that part.

## Model

| member | source | states |
|---|---|---|
| `Addressing.CanonicalIsLowest` | toad/internal/routing/selected_registry.go:630-632 | a prefix is canonical if and only if its address is the lowest of the range it covers |
| `Addressing.SameRangeSamePrefix` | toad/internal/routing/selected_registry.go:630-632 | canonical prefixes are keys: two that cover the same addresses are equal |
| `Addressing.HostIsOneAddress` | toad/internal/routing/prefix.go:6-10 | a prefix is a host prefix if and only if it is valid and covers no other address |
| `Addressing.RouteValidity` | toad/internal/routing/selected_registry.go:98-126 | a selected identity is valid if and only if it is a row of the main table for a canonical prefix, on a real interface, on link or by way of an address of the same family outside ::ffff:0:0/96 |
| `Addressing.ParkValidity` | toad/internal/routing/selected_registry.go:150-191 | a park is valid if and only if it carries the park metric and leads nowhere: no way out at all, or one to an address in 127.0.0.0/8 or ::1, whichever family the prefix has |
| `Records.ReserveKeepsEvidence` | toad/internal/routing/selected_registry.go:290-328 | in memory, re-reserving keeps every authorized identity authorized if and only if it does not change the identity of an authorized, unproven mutation (Applying, or Retiring from Applying, without a matching Owned) |
| `Records.ReserveParkKeepsEvidence` | toad/internal/routing/selected_registry.go:392-418 | the same for parks: re-reserving keeps every authorized park identity if and only if no unproven park mutation is in flight |
| `Planner.PlanSelectedRoute` | toad/internal/routing/selected_plan.go:108-206 | for every row list, acceptance and action are a function of the multiset of rows, so the order of the list does not matter; which conflict is reported is fixed too |
| `Planner.PlanIsVerdict` | toad/internal/routing/selected_plan.go:108-169 | on a kernel without duplicate rows the set form used by the writer equals the multiset verdict |
| `Planner.PlanConverges` | toad/internal/routing/selected_plan.go:108-169 | executing an accepted action leaves all parks alone and reaches a fixed point (the planner then answers "nothing to do") if and only if the record is Applying or already owned a row |
| `Planner.ReconciledIsPlanned` | toad/internal/routing/selected_plan.go:108-169 | the rows one reconciliation aims for need no further action |
| `Planner.LostRowIsForeign` | toad/internal/routing/selected_plan.go:136-150 | a live row whose record was re-reserved to another identity makes every later plan a conflict |
| `Protocol.NoOrphanRows` | toad/internal/control/selected_transactions.go:31-194 | in every run, with outside edits and a crash after any step, each live row the controller created or verified is named by memory, and by the checkpoint unless a write ran ahead of it; the only exceptions are the very identities that a re-reservation dropped in flight or that the checkpoint did not name at a crash, until they are proven again |
| `Protocol.NoOrphanParks` | toad/internal/control/selected_parking.go:57-491 | in every such run each live park row is named by both copies of the record, except the very parks that a cleared Pending park still owned or that were in flight when the park was re-reserved, until they are proven again |
| `Protocol.OrphanAfterChangedReserve` | toad/internal/routing/selected_registry.go:308-325 | the first exception is real: a run in which re-reserving an Applying record leaves a live row named by neither copy of the record |
| `Protocol.OrphanAfterUnloggedWrite` | toad/internal/control/selected_routes.go:589-594 | so is the second: a restoration re-reserves without a checkpoint and an Applying record goes straight to the write; although no evidence was lost, a crash then leaves a row that neither copy names |
| `Protocol.OrphanParkAfterRetirement` | toad/internal/control/selected_transactions.go:160-170 | and so is the exception for parks: a run after which memory and disk are empty and a park row of the controller is left |
| `Protocol.WriteAhead` | toad/internal/control/selected_transactions.go:54-77 | in every run, with outside edits and crashes, each row that the controller adds or removes is licensed by the checkpoint of that moment (Applying, ParkApplying, Retiring, ParkRetiring, a durable park), except under an identity re-reserved without a checkpoint |
| `Protocol.WriteIsLicensedExactly` | toad/internal/control/selected_transactions.go:79-82 | the exception is exact: a route write is licensed if and only if memory and checkpoint carry the same identity |
| `Protocol.QuietWriteAhead` | toad/internal/control/selected_parking.go:317-336 | without outside edits every change is licensed, and every removal outside a retirement leaves a selected or park row |
| `Protocol.NeverBare` | toad/internal/control/selected_parking.go:57-491 | in every run without outside edits, once a registered prefix is covered by a selected row or a park row it stays covered after every step and crash, until its retirement is durable |
| `Protocol.RetirementConfluent` | toad/internal/control/selected_transactions.go:131-214 | however often a durable retirement is interrupted and resumed, the rows it is heading for never change, and when the record is gone exactly those are left |
| `Protocol.RunInv` | toad/internal/control/selected_parking.go:57-491 | the invariant behind the theorems holds in every state of every run, for the in-memory and the checkpointed copy |
| `Protocol.StepKeepsInv` | toad/internal/control/selected_parking.go:57-491 | every kind of step, crashes and outside edits included, keeps the invariant |
| `SelectedRoutes.SelectedRouteManager.StillCovered` | toad/internal/control/selected_parking.go:57-491 | never bare in terms of the kernel of a running manager: the prefix has a selected or park row |
| `SelectedRoutes.SelectedRouteManager.NowInv` | toad/internal/control/selected_parking.go:57-491 | every state that the manager methods can produce satisfies the protocol invariant, because all their steps are protocol steps |
| `SelectedRoutes.SelectedRouteManager.WriteCheckpoint` | toad/internal/control/selected_routes.go:619-635 | on success the disk holds the whole registry slice; a failed write may or may not have landed and ends the process |
| `SelectedRoutes.SelectedRouteManager.Restart` | toad/internal/control/selected_routes.go:970-1021 | memory is reloaded from the checkpoint, a non-empty role comes back frozen with a pending restore, under a generation above the stored one, so no unfrozen role holds a park |
| `SelectedRoutes.SelectedRouteManager.Reserve` | toad/internal/routing/selected_registry.go:290-328 | valid identities only; the record carries exactly the requested zone, source, generations, interface and identity; the old identity is marked lost exactly when it was in flight and not Owned |
| `SelectedRoutes.SelectedRouteManager.Transition` | toad/internal/routing/selected_registry.go:603-619 | an illegal transition changes nothing; a legal one replaces exactly that record |
| `SelectedRoutes.SelectedRouteManager.RouteReplace` | toad/internal/platform/linux/netlink/routes.go:633-693 | if nobody edits during the call (calm) the rows are unchanged, gain Desired, or have the stale row exchanged for Desired; never less |
| `SelectedRoutes.SelectedRouteManager.ReconcileSelectedRoute` | toad/internal/platform/linux/netlink/routes.go:633-693 | needs a durable Applying record; success means exactly the Desired selected row, read back; on a reliable and calm platform it succeeds if and only if the planner accepts; if the planner rejects, no row changes, whatever else fails |
| `SelectedRoutes.SelectedRouteManager.RemoveSelectedRoute` | toad/internal/platform/linux/netlink/routes.go:701-755 | needs durable Retiring or a durable live park; removes exactly the authorized identities and no other row |
| `SelectedRoutes.SelectedRouteManager.ReconcileManagedPark` | toad/internal/platform/linux/netlink/selected_parks.go:150-225 | needs a durable ParkApplying record; the new park is live before the stale one goes; no other row changes; succeeds if and only if every row belongs to the record; if a row does not belong to the record, no row changes, whatever else fails |
| `SelectedRoutes.SelectedRouteManager.RemoveManagedPark` | toad/internal/platform/linux/netlink/selected_parks.go:252-320 | needs durable ParkRetiring; deletes exactly the identities that transaction names and proves their absence |
| `SelectedRoutes.SelectedRouteManager.Preflight` | toad/internal/platform/linux/netlink/routes.go:615-632 | refuses, before the Applying checkpoint, exactly the rows the planner refuses |
| `SelectedRoutes.SelectedRouteManager.PreflightPark` | toad/internal/platform/linux/netlink/selected_parks.go:69-143 | refuses exactly the rows that do not belong to the record |
| `SelectedRoutes.SelectedRouteManager.Drive` | toad/internal/control/selected_transactions.go:95-125 | the authorized tail: success means the record is proven Active, checkpointed, and its row is the only selected one; failure leaves memory and disk as they were |
| `SelectedRoutes.SelectedRouteManager.ReconcileRecord` | toad/internal/control/selected_transactions.go:31-90 | from any state: success proves Desired and checkpoints it; a failure never leaves an Active record; parks and other prefixes are untouched; no write runs ahead unless memory had diverged from the checkpoint; with no failure or edit during the call it succeeds if and only if the planner accepts the rows; rows that the planner rejects are never changed, whatever else fails |
| `SelectedRoutes.SelectedRouteManager.Demote` | toad/internal/control/selected_transactions.go:41-52 | a drifted Active record becomes durably Pending with all ownership evidence kept |
| `SelectedRoutes.SelectedRouteManager.RetireRecord` | toad/internal/control/selected_transactions.go:131-194 | from every settled state, whatever boundary an earlier attempt stopped at, a reliable and calm platform completes it: record gone from memory and disk, exactly its rows gone from the kernel; a failure keeps a durable Retiring record |
| `SelectedRoutes.SelectedRouteManager.RetirePark` | toad/internal/control/selected_transactions.go:157-186 | the park transaction ends in full for every park state; a Pending one is cleared without a delete |
| `SelectedRoutes.SelectedRouteManager.FinishParkRetirement` | toad/internal/control/selected_transactions.go:199-214 | exact delete, proven absence, clear, checkpoint |
| `SelectedRoutes.SelectedRouteManager.BeginRetirement` | toad/internal/control/selected_transactions.go:140-150 | Retiring is durable first and keeps exactly the rows the record accounted for |
| `SelectedRoutes.SelectedRouteManager.FlushZone` | toad/internal/control/selected_transactions.go:254-293 | every intent of the zone is retired in full or durably Retiring, intents of other zones keep records and rows; it goes on past failures |
| `SelectedRoutes.SelectedRouteManager.ParkOne` | toad/internal/control/selected_parking.go:87-159 | success means a proven park with the current identity; a durable ParkApplying record is stuck: the call fails and changes nothing; otherwise it succeeds if and only if the park is proven and live already, or its identity is valid and no foreign row is in the way |
| `SelectedRoutes.SelectedRouteManager.Repark` | toad/internal/control/selected_parking.go:149-157 | an interrupted retirement is finished first, then the park is installed afresh; an invalid identity is reported; the prefix keeps every other row |
| `SelectedRoutes.SelectedRouteManager.ApplyPark` | toad/internal/control/selected_parking.go:217-247 | durable ParkApplying before the mutation, durable ParkActive after the exact proof |
| `SelectedRoutes.SelectedRouteManager.ResumeParkRetirement` | toad/internal/control/selected_parking.go:252-263 | completes an interrupted park retirement and only removes what it names |
| `SelectedRoutes.SelectedRouteManager.ParkRegistered` | toad/internal/control/selected_parking.go:57-83 | only on a frozen role; success proves a park for every record that is not retiring, with all other rows and record fields kept; with no failure or edit during the call it succeeds if and only if every such record can be parked |
| `SelectedRoutes.SelectedRouteManager.ObserveParks` | toad/internal/control/selected_parking.go:300-316 | succeeds exactly when every record that is not retiring has an exact Active park that is live |
| `SelectedRoutes.SelectedRouteManager.WithdrawSelected` | toad/internal/control/selected_parking.go:277-336 | succeeds exactly when all records are protected; then exactly the authorized selected rows are gone and every park is still there; registry and checkpoint are untouched |
| `SelectedRoutes.SelectedRouteManager.RetireProvenPark` | toad/internal/control/selected_parking.go:398-491 | gives a park up exactly when the selected row is proven, present, undisputed and wins by metric; afterwards that row is still there; an unproven record is left alone |
| `SelectedRoutes.SelectedRouteManager.ObserveRestoration` | toad/internal/control/selected_parking.go:341-379 | succeeds exactly when every park is retiring or proven replaceable; then no park transaction is left, and exactly the park rows are gone |
| `SelectedRoutes.SelectedRouteManager.Restore` | toad/internal/control/selected_routes.go:543-597 | records of a family that is not ready, ranges that stem from DNS, retiring records and those proven on the interface are left as they are, rows included, whether it succeeds or not; on success every other record is Active on the new identity with the current generations and interface, its zone, source and park kept; succeeds exactly when every such identity is valid and its rows are accepted; evidence is lost at most by re-reserving an unproven identity in flight |
| `SelectedRoutes.SelectedRouteManager.Reapply` | toad/internal/control/selected_routes.go:584-594 | the reservation is not checkpointed before the transaction: a write runs ahead of the checkpoint only if this reservation, or an earlier one left unsaved, changed an identity in flight |
| `SelectedRoutes.SelectedRouteManager.Recover` | toad/internal/core/recovery_runner.go:102-160 | a failed recovery leaves the role frozen, a successful one leaves no park; on a healthy role it succeeds if and only if every record moves (other interface, family ready, not a DNS range), with route generation plus one; either way each prefix ends with exactly one row, the new selected row if it moves and otherwise its park |
| `SelectedRoutes.SelectedRouteManager.Ensure` | toad/internal/control/selected_transactions.go:298-356 | denied while frozen; otherwise success proves the requested identity exactly, with zone, source, generations and interface as requested, other prefixes untouched; the reservation is durable first, so no write runs ahead of the checkpoint; no park is ever started, so an unfrozen role holds none; rows that the planner rejects are never changed |
| `SelectedRoutes.SelectedRouteManager.Unfreeze` | toad/internal/control/selected_routes.go:530-538 | opens the role under the next generation; a pending restore stays pending |
| `Recovery.UnreadyFamilyStaysParked` | toad/internal/control/selected_routes.go:569-577 | readiness of one family never moves the other: its prefixes end with exactly their parks, and the recovery does not succeed |
| `Stages.RestorationIsExact` | toad/internal/control/selected_routes.go:566-596 | the skip rule of the restoration is exactly the promised one |
| `Recovery.ParkStage` | toad/internal/control/selected_parking.go:57-83 | after parking, a healthy prefix has exactly its selected row and its park |
| `Recovery.WithdrawStage` | toad/internal/control/selected_parking.go:277-336 | after the withdrawal it has exactly its park, and the new identity is acceptable |
| `Recovery.RestoreStage` | toad/internal/control/selected_routes.go:566-596 | after restoration it has the new row beside its park if and only if it moves; only then can it be unparked |
| `Recovery.UnparkStage` | toad/internal/control/selected_parking.go:341-379 | after unparking it has exactly the new row, or still exactly its park |
| `Stages.ParkAdvances` | toad/internal/control/selected_parking.go:72-82 | one turn of the parking loop keeps what was achieved for the other prefixes |
| `Stages.WithdrawAdvances` | toad/internal/control/selected_parking.go:317-324 | one deletion keeps every park and every other prefix |
| `Stages.UnparkAdvances` | toad/internal/control/selected_parking.go:349-371 | one turn of the unparking loop keeps every other prefix |
| `Stages.ReapplyAdvances` | toad/internal/control/selected_routes.go:566-596 | one turn of the restoring loop keeps every other prefix and all parks |
| `Stages.FlushAdvances` | toad/internal/control/selected_transactions.go:278-288 | one retirement of a flush keeps every other prefix |
| `Stages.FlushStartsNoPark` | toad/internal/control/selected_transactions.go:278-288 | flushing a role without parks leaves it without parks |
| `Observation.Debounce` | toad/internal/control/selected_route_reconciler.go:287-312 | the loop over the arrived events computes the fold |
| `Observation.FoldIsExact` | toad/internal/control/selected_route_reconciler.go:287-326 | for every list of events the batch carries the newest sequence, and keeps one scope if and only if all events share it and none is missing |
| `Observation.FoldIsConservative` | toad/internal/control/selected_route_reconciler.go:287-361 | the batch clears every token that some event alone would clear |
| `Reconciler.SelectedRouteReconciler.FastPathIsExact` | toad/internal/control/selected_transactions.go:302-334 | when the token path answers for a prefix that is not in doubt, the kernel holds exactly the Desired row of the prefix |
| `Reconciler.SelectedRouteReconciler.FastPathOfFreshRole` | toad/internal/control/selected_transactions.go:302-334 | in a process that started without records to restore every answer is exact, provided that events and audit snapshots wait for the running call; the code does not make them wait |
| `Reconciler.SelectedRouteReconciler.Publish` | toad/internal/control/selected_routes.go:1028-1057 | the startup restore ends, without a new generation, exactly when the walk was complete and every record is Active, unparked and carries its current token; the tokens it puts in doubt are exactly the overlooked ones that were not visited, or all if it opens a frozen role |
| `FastPath.AnswerIsExact` | toad/internal/control/selected_reconcile_support.go:27-32 | with no event outstanding a live truthful token names the only row of its prefix |
| `FastPath.StepKeepsTruth` | toad/internal/control/selected_reconcile_support.go:36-99 | a call, with edits up to the moment its token is stored and the events a lossless observer raises meanwhile, keeps every truthful token truthful |
| `FastPath.DequeueKeepsTruth` | toad/internal/control/selected_route_reconciler.go:340-361 | taking a batch and clearing its scope first keeps tokens truthful, whether or not the batch then succeeds |
| `FastPath.StepKeepsAudit` | toad/internal/control/selected_route_reconciler.go:417-448 | other calls between the snapshots and visits of an audit do not spoil what it has established |
| `FastPath.MintKeepsAudit` | toad/internal/control/selected_route_reconciler.go:478-486 | minting from the snapshot is sound even if the row changed meanwhile, because its event is newer than the snapshot |
| `FastPath.AuditEnds` | toad/internal/control/selected_route_reconciler.go:374-411 | after all visits the sequence of the snapshot may be published for every prefix but those of late calls |
| `FastPath.UnvisitedAudit` | toad/internal/control/selected_route_reconciler.go:452-463 | publishing a sequence without visiting some records is sound on every kernel if and only if none of their tokens is overlooked, that is, live with every outstanding event that clears it at or before that sequence |
| `Scenario.AnswersForMissingRow` | toad/internal/control/selected_route_reconciler.go:452-463 | a run of public calls on a platform that never fails: apply, restart, recovery, Ensure, an outside delete, and an audit under the pending restore; it ends with the token path answering for a missing row, on an open role whose startup restore that audit has just completed |
| `Scenario.Recovered` | toad/internal/control/selected_routes.go:530-538 | the recovery after a restart opens the role and leaves the startup restore pending |
| `Scenario.AnswersAfterLateMint` | toad/internal/control/selected_route_reconciler.go:417-432 | a run of public calls in a process that started empty: an Ensure reads its row back, the row is deleted, an audit takes both snapshots, the Ensure stores its token, the audit skips the changed record and publishes; the token path then answers for a missing row |
| `FastPath.MintIsSoundExactly` | toad/internal/control/selected_reconcile_support.go:84-99 | storing a token some time after the read-back is sound on every kernel if and only if it was not overtaken: an event since the read-back that clears it must still be to be processed |
| `FastPath.MintAfterLinkEvent` | toad/internal/control/selected_reconcile_support.go:176-196 | a run in which a link event is handled between the read-back and the token: the token is live, nothing is outstanding, and the row is gone |
| `FastPath.LateMintKeepsAudit` | toad/internal/control/selected_route_reconciler.go:424-432 | a call that was open at the snapshots of an audit spoils no other prefix when it stores its token |
| `FastPath.BatchScope` | toad/internal/control/selected_route_reconciler.go:287-326 | a batch from a channel without gaps keeps the scope of its events if and only if they share it |
| `FastPath.WalkAdvances` | toad/internal/control/selected_route_reconciler.go:424-448 | a visit keeps what the walk has achieved for every other prefix |
| `Reconciler.SelectedRouteReconciler.Begin` | toad/internal/control/selected_transactions.go:338-356 | the transaction of an intent up to its read-back: record proven and durable, exactly its row live, token still to be stored; tokens stay truthful |
| `Reconciler.SelectedRouteReconciler.Finish` | toad/internal/control/selected_transactions.go:100-123 | stores the token of the open call; exactly an overtaken token is in doubt |
| `Reconciler.SelectedRouteReconciler.Settle` | toad/internal/control/selected_transactions.go:100-123 | with only outside edits between read-back and token, the token is never in doubt |
| `Reconciler.SelectedRouteReconciler.TakeRecords` | toad/internal/control/selected_route_reconciler.go:417-423 | whatever runs between the two snapshots of an audit, the walk begins with every prefix truthful as of the kernel snapshot or still to be visited, but for a call that was open at both |
| `Reconciler.SelectedRouteReconciler.Ensure` | toad/internal/control/selected_transactions.go:298-356 | an Ok answer, by token or by transaction, leaves the record and the token that this very request asks for: zone, source, process generation and identity; a token answer changes nothing and is exact unless in doubt; after the slow path the row is exact or an event that clears its token is outstanding, and it is exact if nobody edits during the call; tokens stay truthful |
| `Reconciler.SelectedRouteReconciler.Forget` | toad/internal/control/selected_transactions.go:218-249 | with nothing failing or interfering it succeeds; success leaves no record, no token and a checkpoint without it, and takes exactly the rows of the identities that the record authorized; a failure leaves the record durably Retiring |
| `Reconciler.SelectedRouteReconciler.HandlePrefix` | toad/internal/control/selected_reconcile_support.go:118-171 | unless recovery, quarantine or a freeze owns the record, an event retires a retiring record and drives any other to the end of its transaction: proven, with its token and, if nobody interferes, as the only row; with nothing failing it succeeds if and only if the planner accepts the rows; otherwise nothing changes |
| `Reconciler.SelectedRouteReconciler.StableSnapshot` | toad/internal/control/selected_route_reconciler.go:263-282 | a snapshot around which the sequence did not move shows the current rows of every prefix |
| `Reconciler.SelectedRouteReconciler.VisitRecord` | toad/internal/control/selected_route_reconciler.go:465-510 | a visit ends with the record proven, its token truthful and, if nobody interferes, its row the only one, or fails; an exact row in the snapshot is confirmed without touching anything; a row the planner rejects, and therefore every Retiring record, quarantines the role without touching registry or kernel |
| `Reconciler.SelectedRouteReconciler.Visit` | toad/internal/control/selected_route_reconciler.go:424-463 | a record that changed meanwhile, is parked, or waits for a startup restore is passed over without any change; every other one is visited |
| `Reconciler.SelectedRouteReconciler.Quarantine` | toad/internal/control/selected_reconcile_support.go:201-216 | freezes the role and drops all tokens, touching no row |
| `Reconciler.SelectedRouteReconciler.RunAudit` | toad/internal/control/selected_route_reconciler.go:374-448 | the sequence is published only after all visits succeeded; then every record that was due is proven with its token and its row, all others are as they were, and nothing is in doubt but the prefix of a call that was open at both snapshots, unless a restore is pending; with nothing failing it succeeds if and only if the planner accepts the rows of every due record, and otherwise quarantines the role; a failed audit clears all tokens |
| `Reconciler.SelectedRouteReconciler.HandleEventBatch` | toad/internal/control/selected_route_reconciler.go:287-361 | events about one prefix act on its record, events about one link clear exactly the tokens of that link, anything else clears all tokens and audits; the newest sequence is published if and only if the batch was handled; with no call open and no restore pending it puts nothing in doubt; every other token stays truthful on every path, also around an open call |
| `Reconciler.SelectedRouteReconciler.Recover` | toad/internal/control/selected_reconcile_support.go:84-99 | tokens minted during a recovery carry the generation it closes, so none survives it |
| `Reconciler.SelectedRouteReconciler.Restart` | toad/internal/control/selected_routes.go:1000-1018 | no token survives a restart |
| `Registry.ReachableIsCheckpointable` | toad/internal/routing/selected_registry.go:290-619 | after any sequence of admissible calls, legal or not, every record sits under its key and passes checkpoint validation |
| `Registry.ReserveNeedsGuarantee` | toad/internal/routing/selected_registry.go:290-328 | a reservation keeps that if and only if it has nonzero generations and, for DNS, a host prefix: the registry itself does not check |
| `Registry.RoundTrip` | toad/internal/routing/selected_registry.go:484-524 | any listing of a role makes a valid checkpoint, and restoring it into an empty registry gives exactly that role back |
| `Registry.ValidateCheckpoint` | toad/internal/routing/selected_registry.go:681-752 | accepts exactly the checkpoints that satisfy the schema, role, platform, zone, entry and uniqueness rules; with a zone, exactly those acceptable without one whose entries are all in it |
| `Registry.Collect` | toad/internal/routing/selected_registry.go:488-516 | collects the entries exactly when none is a duplicate or breaks a machine invariant |
| `Registry.MemorySelectedRegistry.RestoreRole` | toad/internal/routing/selected_registry.go:484-524 | all or nothing: an invalid checkpoint leaves the registry untouched |
| `Registry.MemorySelectedRegistry.Reserve` | toad/internal/routing/selected_registry.go:290-328 | an error changes nothing; success records exactly what was requested and keeps ownership and park; only a changed identity demotes an Active record |
| `Registry.MemorySelectedRegistry.Transition` | toad/internal/routing/selected_registry.go:603-619 | succeeds exactly when the transition is legal in the state of the record, and an error changes nothing; a success achieves what the transition is for and leaves the other machine alone |
| `Registry.MemorySelectedRegistry.Snapshot` | toad/internal/routing/selected_registry.go:557-585 | lists exactly the records of the role, each once |
| `Registry.MemorySelectedRegistry.RemoveRole` | toad/internal/routing/selected_registry.go:593-601 | removes exactly the records of the role |
| `Gate.RoleGate.BeginEnsure` | toad/internal/control/selected_routes.go:365-455 | admitted exactly when not frozen; the zero signal is open exactly while a call is in flight; every waiting freeze keeps its guarantee |
| `Gate.RoleGate.EndEnsure` | toad/internal/control/selected_routes.go:245-251 | the signal is closed exactly when the last call ends, and never twice |
| `Gate.RoleGate.BeginOther` | toad/internal/control/selected_transactions.go:233-248 | Forget and FlushZone are counted even while frozen and spoil no waiting freeze |
| `Gate.RoleGate.EndOther` | toad/internal/control/selected_transactions.go:238-242 | as for an Ensure: the last call closes the signal once |
| `Gate.RoleGate.BeginFreeze` | toad/internal/control/selected_routes.go:501-506 | captures the current signal; from here on no Ensure is admitted |
| `Gate.RoleGate.FinishFreeze` | toad/internal/control/selected_routes.go:507-517 | once the captured signal is closed, no admitted Ensure is running and none is admitted unless the role was thawed; it passes whenever nothing is in flight, and a cancelled wait leaves the role frozen |
| `Gate.RoleGate.Thaw` | toad/internal/control/selected_routes.go:530-538 | the only way a freeze loses its guarantee |
| `Netstate.Compare` | toad/internal/netstate/compare.go:5-36 | the epoch advances by one exactly when a path or the access point changed, and the reason names the most significant difference; everything else of the new snapshot is kept |
| `Products.UnderlayAuthority.ApplyUnderlayChange` | toad/internal/control/control.go:1689-1717 | over any sequence of snapshots manager and controller hold the same identity and epoch, the epoch is the number of identity changes seen from the zero snapshot, and it never decreases; the controller takes over a changed underlay first and then, after a resume, revalidates |
| `Controller.ReadyIsAuthoritative` | toad/internal/core/controller.go:75-226 | in every sequence of calls without SetRecovery and Complete, with tokens that were really issued, a Ready role is desired, route-ready, has a process and a path, and was validated on the current nonzero epoch |
| `Controller.SetRecoveryKeepsAuthority` | toad/internal/core/controller.go:30-48 | the unfenced write keeps that if and only if it does not publish Ready for a role that is not entitled |
| `Controller.UnfencedReady` | toad/internal/core/engine.go:156-162 | and it does happen: six fenced calls and the end of a recovery publish Ready on an underlay that nobody validated |
| `Controller.CompleteKeepsAuthority` | toad/internal/core/snapshot.go:230-250 | so does an operation completion, if and only if validation could run for the role |
| `Controller.UnentitledCompletion` | toad/internal/core/snapshot.go:230-250 | a run of three calls in which it publishes Ready for a role without a process |
| `Controller.NoAba` | toad/internal/core/controller.go:75-157 | between BeginValidation and an accepted completion the role was desired under one operation and the underlay was the same at every moment, and so was the process if generation numbers are fresh |
| `Controller.ReusedGenerationIsAba` | toad/internal/core/snapshot.go:149-160 | without fresh numbers it fails: a run in which a replacement process is taken for the validated one |
| `Controller.WaitingMeansNoPath` | toad/internal/core/snapshot.go:87-138 | in every reachable state a role that waits for the underlay has no path in either family |
| `Controller.EpochFixesUnderlay` | toad/internal/core/snapshot.go:87-120 | two moments with the same epoch have the same underlay identity, and epochs never decrease |
| `Controller.OperationFixesDesired` | toad/internal/core/snapshot.go:64-86 | two moments with the same operation number have the same desired state, and operations never decrease |
| `Controller.GenerationGone` | toad/internal/core/controller.go:206-226 | once a process is gone, its generation does not come back |
| `Products.ProductController.SetUnderlay` | toad/internal/core/snapshot.go:87-138 | stale and repeated snapshots change nothing; an accepted one moves every desired role, and every change but a refreshed time gets a new revision |
| `Products.ProductController.Spread` | toad/internal/core/snapshot.go:117-137 | the loop takes every role to the new underlay independently of the order |
| `Products.ProductController.ObserveToad` | toad/internal/core/snapshot.go:149-211 | accepted exactly from the bound process generation; a positive report never makes a role Ready |
| `Products.ProductController.BeginValidation` | toad/internal/core/controller.go:75-94 | a token is issued exactly for a desired, route-ready role with a process and an available underlay |
| `Products.ProductController.CompleteValidation` | toad/internal/core/controller.go:98-129 | accepted exactly while operation, generation and epoch of the token are current |
| `Products.ProductController.CompleteValidationPending` | toad/internal/core/controller.go:135-157 | the same fence; the role goes back to recovering |
| `Products.ProductController.RequestResumeValidation` | toad/internal/core/snapshot.go:255-265 | after a resume no desired role is Ready |
| `Products.ProductController.RequestRoleValidation` | toad/internal/core/controller.go:169-185 | accepted exactly for a desired, route-ready role with a process |
| `Products.ProductController.MarkRecovering` | toad/internal/core/controller.go:189-202 | accepted exactly for a desired role |
| `Products.ProductController.BeginToadGeneration` | toad/internal/core/controller.go:206-226 | a replacement inherits no authority |
| `Products.ProductController.SetRoleDesired` | toad/internal/core/snapshot.go:64-86 | every flip, and only a flip, starts a new operation |
| `Products.ProductController.SetRecovery` | toad/internal/core/controller.go:30-48 | writes the state without any fence |
| `Products.ProductController.Complete` | toad/internal/core/snapshot.go:230-250 | accepted exactly while operation and epoch match |
| `Engine.DecisionIsLeast` | toad/internal/core/reconciler.go:22-71 | for every role, underlay and capability report the decision is the one least disruptive action among those that serve the role |
| `Engine.ReportDecides` | toad/internal/core/snapshot.go:149-211 | what a report of the process leads to: a failed or stopped process is replaced, a dead session restarted, a lost target looked at or restarted, a recovering process rebound if it can be, and a good report does not replace a validation |
| `Engine.ReportsThatDecideNothing` | toad/internal/core/snapshot.go:149-211 | a repeated report changes nothing, and one without a route target does not touch the state of an undesired role |
| `Engine.CallsSteerEngine` | toad/internal/core/controller.go:75-226 | every accepted call of the controller makes the engine take the action it stands for; a rejected one changes nothing |
| `Engine.ValidationSteersEngine` | toad/internal/core/controller.go:98-157 | a good validation leaves nothing to do unless the session is broken, a bad one replaces the process, a pending one moves the transport |
| `Engine.UnderlayTaken` | toad/internal/core/snapshot.go:87-120 | which snapshots count: unnumbered ones if their identity is new, newer ones as they are, stale ones never, and current ones only for the observation time |
| `Engine.UnderlaySteersEngine` | toad/internal/core/snapshot.go:87-138 | a lost path makes every desired role wait, a new one moves the transport of every role that was up or waiting, and a resume revalidates every Ready role |
| `Engine.ManagedOrder` | toad/internal/core/recovery_runner.go:102-160 | however far a managed run got: frozen first, parked before withdrawn, withdrawn before the transport is touched, validated before restored, restored before unparked, unparked before published, unfrozen last |
| `Engine.RecoveryEngine.Recover` | toad/internal/core/engine.go:65-163 | for every driver behaviour: the action is the least disruptive one that serves the role; Rebind is asked for exactly when the backend can, the process is alive, nothing is broken and the epoch is not current; the transport is restarted exactly when the process is dead, something is broken, or the epoch is not current and the backend cannot rebind; nothing is attempted exactly for an idle role; every step is done at its place in the sequence; Ready is published exactly when all steps succeeded and no cancellation was seen; a cancelled run publishes nothing; any other failure publishes one state with the failing step; a managed run that attempted the freeze leaves the role frozen if and only if it did not reach the unfreeze |
| `Engine.RecoveryEngine.RunRecoverySteps` | toad/internal/core/recovery_runner.go:75-93 | stops at the first failing step, with that step on record |

## Left out

- Kernel access, identity normalization and route observation: the kernel is a map of row sets, the normalizations are function parameters, and the observer is lossless and in order; losing it and proving authority again is not modelled.
- JSON, atomic files, lock files and fsync: a checkpoint write is one step.
- Several roles in one manager: `SelectedRouteManager` is one role, and other roles' rows on its prefixes count as outside edits; `Registry` covers all roles.
- The order of registry snapshots: loops visit prefixes in any order, which covers the sorted one.
- Counters are unbounded; 64-bit wrap-around of epochs, sequences and generations is not modelled.
- Texts, timestamps and statistics of the controller, its aggregate state, and the legacy park and baseline code.
- Driver effects other than freezing: the engine's driver may succeed or fail at any step, and its own writes to the controller are not shown.
- Retrying a quarantined role and requesting recoveries: nothing is claimed about progress out of quarantine or of a startup restore.
- Supervision, process handling, mode transitions, authentication, framing, configuration and user interfaces.
- SelectedRoutes.SelectedRouteManager.ParkOne: claims safety, not progress, for a durable ParkApplying record, because the code cannot resume it.
- SelectedRoutes.SelectedRouteManager.ReconcileManagedPark: a busy answer to a park write is an error at once, while the Linux writer goes on to the read-back; with the constant Linux park identity there is no stale park to delete in between, so the outcome is the same.
- SelectedRoutes.SelectedRouteManager.RetireProvenPark: does not model the Windows effective-metric proof; a selected row wins by the plain metric comparison.
- SelectedRoutes.SelectedRouteManager.Ensure: does not model admission by zone, product readiness, family and capacity, which only deny earlier.
- Registry.ValidateCheckpoint: does not state the rejection of unknown state and source texts, which the typed records cannot represent.
- Registry.Collect: does not state the rejection of unknown state texts, for the same reason.
- SelectedRoutes.SelectedRouteManager.WriteCheckpoint: does not model a role without a state directory, for which the source reports success without writing anything; nothing durable is claimed for such a role.
- Reconciler.SelectedRouteReconciler.FastPathIsExact: is claimed only for prefixes that are not in doubt; it is false otherwise, as `Scenario.AnswersForMissingRow` and `Scenario.AnswersAfterLateMint` show.
- Reconciler.SelectedRouteReconciler.FastPathOfFreshRole: is claimed only if events and audit snapshots wait for the running call, which the code does not do; it is false otherwise, as `Scenario.AnswersAfterLateMint` shows.
- Reconciler.SelectedRouteReconciler.Ensure: exactness of a token answer is claimed under the first of these conditions; a row that is deleted right after its read-back is reported by an event, not by the call.
- FastPath.StepKeepsTruth: a call is one step up to its read-back; audit snapshots and event handling inside that part are not modelled.
- FastPath.StepKeepsAudit: under the same assumption about calls.
- Controller.SetRecoveryKeepsAuthority: Ready authority is not claimed across this write, which the code does not fence.
- Controller.CompleteKeepsAuthority: Ready authority is not claimed across this write either.
