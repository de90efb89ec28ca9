/**
 The in-memory registry, keyed by role and prefix, and its checkpoints. Every registry that admissible
 calls can reach passes checkpoint validation, and restoring a role's checkpoint gives that role back.
 */
module Registry {
  import opened Identity
  import opened Records

  const CHECKPOINT_SCHEMA := 2
  const PLATFORM_LINUX := "linux"
  const PLATFORM_WINDOWS := "windows"

  datatype Key = Key(role: string, prefix: Prefix)

  type Entries = map<Key, SelectedRoute>

  /** The persistence record of one role. The entry list may be missing from a damaged file. */
  datatype Checkpoint = Checkpoint(
    schema: int, role: string, routeGeneration: nat, entries: Option<seq<SelectedRoute>>, platform: string)

  /** The transitions of one registered record. */
  datatype Move =
    | MoveApplying | MoveActive(observed: RouteId) | MoveRetiring | MoveRepair
    | MoveReservePark(park: ParkId, force: bool) | MoveParkApplying | MoveParkActive(seen: ParkId)
    | MoveParkRetiring | MoveClearPark

  function Moved(r: SelectedRoute, move: Move): Option<SelectedRoute> {
    match move
    case MoveApplying => r.MarkApplying()
    case MoveActive(observed) => r.MarkActive(observed)
    case MoveRetiring => r.MarkRetiring()
    case MoveRepair => r.BeginRepair()
    case MoveReservePark(park, force) => r.ReservePark(park, force)
    case MoveParkApplying => r.MarkParkApplying()
    case MoveParkActive(seen) => r.MarkParkActive(seen)
    case MoveParkRetiring => r.MarkParkRetiring()
    case MoveClearPark => r.ClearPark()
  }

  /** When a transition is legal. */
  predicate IsLegal(move: Move, r: SelectedRoute) {
    match move
    case MoveApplying => r.state == Pending || r.state == Applying
    case MoveActive(observed) => (r.state == Applying || r.state == Active) && observed == r.desired
    case MoveRetiring => r.state != Retiring
    case MoveRepair => r.state == Active
    case MoveReservePark(park, _) => park.Valid(r.prefix)
    case MoveParkApplying => r.park.Some? && r.park.value.state == ParkPending
    case MoveParkActive(seen) =>
      r.park.Some? && r.park.value.state in {ParkApplying, ParkActive} && seen == r.park.value.desired
    case MoveParkRetiring => r.park.Some? && r.park.value.state in {ParkApplying, ParkActive}
    case MoveClearPark => r.park.None? || r.park.value.state in {ParkPending, ParkRetiring}
  }

  /**
   What a transition is for. Ownership moves only by a proof, and a retirement remembers whether a mutation was in
   flight when it began; a route transition leaves the park alone, and a park transition the route.
   */
  predicate Achieves(move: Move, r: SelectedRoute, r': SelectedRoute)
    requires IsLegal(move, r)
  {
    match move
    case MoveApplying => r' == r.(state := Applying)
    case MoveActive(observed) => r' == r.(state := Active, owned := Some(observed))
    case MoveRetiring => r' == r.(state := Retiring, retireDesired := r.state == Applying)
    case MoveRepair => r' == r.(state := Pending, retireDesired := false)
    case MoveReservePark(park, force) =>
      && r' == r.(park := r'.park) && r'.park.Some? && r'.park.value.desired == park
      && r'.park.value.owned == (if r.park.Some? then r.park.value.owned else None)
      && (if !force && r.park.Some? && r.park.value.desired == park then r' == r
          else r'.park.value.state == ParkPending && !r'.park.value.retireDesired)
    case MoveParkApplying => r' == r.(park := Some(r.park.value.(state := ParkApplying)))
    case MoveParkActive(seen) => r' == r.(park := Some(r.park.value.(state := ParkActive, owned := Some(seen))))
    case MoveParkRetiring =>
      var inFlight := r.park.value.state == ParkApplying;
      r' == r.(park := Some(r.park.value.(state := ParkRetiring, retireDesired := inFlight)))
    case MoveClearPark => r' == r.(park := None)
  }

  // ----- what each call does to the map; None is an error that changes nothing -----

  function Reservation(m: Entries, k: Key, zone: string, source: Source, tg: nat, rg: nat, iface: string, desired: RouteId)
    : Option<Entries>
  {
    if k.role == "" || !desired.Valid(k.prefix) then None
    else if k in m then Some(m[k := m[k].Reserved(zone, source, tg, rg, iface, desired)])
    else Some(m[k := FreshRecord(k.role, zone, k.prefix, source, tg, rg, iface, desired)])
  }

  function Transitioned(m: Entries, k: Key, move: Move): Option<Entries> {
    if !k.prefix.IsCanonical() || k !in m || Moved(m[k], move).None? then None
    else Some(m[k := Moved(m[k], move).value])
  }

  function WithoutRole(m: Entries, role: string): Entries {
    map k | k in m && k.role != role :: m[k]
  }

  /** The slice of one role. */
  function Slice(m: Entries, role: string): Entries {
    map k | k in m && k.role == role :: m[k]
  }

  function KeyOf(r: SelectedRoute): Key {
    Key(r.role, r.prefix)
  }

  predicate NoDuplicates(entries: seq<SelectedRoute>) {
    forall i, j | 0 <= i < j < |entries| :: KeyOf(entries[i]) != KeyOf(entries[j])
  }

  function EntryList(c: Checkpoint): seq<SelectedRoute> {
    if c.entries.Some? then c.entries.value else []
  }

  /** No duplicate, and both machine invariants on every entry. */
  predicate Sane(list: seq<SelectedRoute>) {
    NoDuplicates(list) && forall i | 0 <= i < |list| :: list[i].WellFormed()
  }

  function Keys(list: seq<SelectedRoute>): set<Key> {
    set r | r in list :: KeyOf(r)
  }

  lemma NoDuplicatesAppend(list: seq<SelectedRoute>, r: SelectedRoute)
    requires NoDuplicates(list)
    ensures NoDuplicates(list + [r]) <==> KeyOf(r) !in Keys(list)
  {
    var all := list + [r];
    if KeyOf(r) in Keys(list) {
      var e :| e in list && KeyOf(e) == KeyOf(r);
      var j :| 0 <= j < |list| && list[j] == e;
      assert KeyOf(all[j]) == KeyOf(all[|list|]);
    } else {
      forall i, j | 0 <= i < j < |all|
        ensures KeyOf(all[i]) != KeyOf(all[j])
      {
        assert all[i] in list;
      }
    }
  }

  lemma ListedAppend(list: seq<SelectedRoute>, r: SelectedRoute)
    ensures Listed(list + [r]) == Listed(list)[KeyOf(r) := r]
  {
    assert (list + [r])[..|list|] == list && (list + [r])[|list|] == r;
  }

  lemma SaneAppend(list: seq<SelectedRoute>, r: SelectedRoute)
    requires Sane(list)
    ensures Sane(list + [r]) <==> r.WellFormed() && KeyOf(r) !in Keys(list)
    ensures Listed(list + [r]) == Listed(list)[KeyOf(r) := r]
  {
    assert (list + [r])[..|list|] == list && (list + [r])[|list|] == r;
    NoDuplicatesAppend(list, r);
  }

  lemma SanePrefix(list: seq<SelectedRoute>, n: nat)
    requires n <= |list| && Sane(list)
    ensures Sane(list[..n])
  {
  }

  /** What a restore demands. */
  predicate Restorable(c: Checkpoint) {
    c.role != "" && Sane(EntryList(c))
  }

  function Listed(entries: seq<SelectedRoute>): Entries {
    if entries == [] then map[]
    else Listed(entries[..|entries| - 1])[KeyOf(entries[|entries| - 1]) := entries[|entries| - 1]]
  }

  /** All or nothing. */
  function Restored(m: Entries, c: Checkpoint): Option<Entries> {
    if Restorable(c) then Some(m + Listed(EntryList(c))) else None
  }

  /** What a checkpoint entry must satisfy. */
  predicate ValidEntry(r: SelectedRoute, role: string, zone: string) {
    && r.role == role && (zone == "" || r.zone == zone)
    && r.prefix.IsCanonical() && (r.source == Dns ==> r.prefix.IsHost())
    && r.toadGeneration != 0 && r.routeGeneration != 0
    && r.WellFormed()
  }

  predicate ValidCheckpoint(c: Checkpoint, role: string, zone: string) {
    && c.schema == CHECKPOINT_SCHEMA && c.role == role
    && (c.platform == PLATFORM_LINUX || c.platform == PLATFORM_WINDOWS)
    && c.entries.Some?
    && (forall r <- c.entries.value :: ValidEntry(r, role, zone))
    && NoDuplicates(c.entries.value)
  }

  lemma ListedHolds(entries: seq<SelectedRoute>)
    ensures forall k :: k in Listed(entries) <==> exists r <- entries :: KeyOf(r) == k
    ensures forall k <- Listed(entries) :: Listed(entries)[k] in entries && KeyOf(Listed(entries)[k]) == k
  {
    if entries != [] {
      var before, last := entries[..|entries| - 1], entries[|entries| - 1];
      assert entries == before + [last];
      ListedHolds(before);
    }
  }

  // ----- loops of the source -----

  /** Checks a decoded checkpoint entry by entry, with the set of prefixes seen so far. */
  method ValidateCheckpoint(c: Checkpoint, role: string, zone: string) returns (ok: bool)
    ensures ok == ValidCheckpoint(c, role, zone)
    ensures ok <==> ValidCheckpoint(c, role, "") && (zone == "" || forall r <- EntryList(c) :: r.zone == zone)
  {
    if c.schema != CHECKPOINT_SCHEMA || c.role != role {
      return false;
    }
    if c.platform != PLATFORM_LINUX && c.platform != PLATFORM_WINDOWS {
      return false;
    }
    if c.entries.None? {
      return false;
    }
    var entries := c.entries.value;
    var seen: set<Prefix> := {};
    for i := 0 to |entries|
      invariant forall r <- entries[..i] :: ValidEntry(r, role, zone)
      invariant NoDuplicates(entries[..i])
      invariant seen == set r | r in entries[..i] :: r.prefix
    {
      var r := entries[i];
      assert r in entries;
      assert entries[..i + 1] == entries[..i] + [r];
      if r.role != role || (zone != "" && r.zone != zone) || !r.prefix.IsCanonical() {
        return false;
      }
      if r.source == Dns && !r.prefix.IsHost() {
        return false;
      }
      if r.toadGeneration == 0 || r.routeGeneration == 0 || !r.desired.Valid(r.prefix) {
        return false;
      }
      if r.state == Active && r.owned != Some(r.desired) {
        return false;
      }
      if r.state != Retiring && r.retireDesired {
        return false;
      }
      if r.park.Some? && !r.park.value.Valid(r.prefix) {
        return false;
      }
      if r.prefix in seen {
        var earlier :| earlier in entries[..i] && earlier.prefix == r.prefix;
        var j :| 0 <= j < i && entries[j] == earlier;
        assert entries[j] in entries[..i];
        assert KeyOf(entries[j]) == KeyOf(entries[i]);
        return false;
      }
      seen := seen + {r.prefix};
    }
    assert entries[..|entries|] == entries;
    return true;
  }

  /** Collects the entries of a checkpoint, unless one is a duplicate or breaks a machine invariant. */
  method Collect(list: seq<SelectedRoute>) returns (restored: Option<Entries>)
    ensures restored == if Sane(list) then Some(Listed(list)) else None
  {
    var seen: set<Key> := {};
    var collected: Entries := map[];
    for i := 0 to |list|
      invariant collected == Listed(list[..i]) && Sane(list[..i])
      invariant seen == Keys(list[..i])
    {
      var r := list[i];
      SaneAppend(list[..i], r);
      assert list[..i + 1] == list[..i] + [r];
      if KeyOf(r) in seen || !r.WellFormed() {
        if Sane(list) {
          SanePrefix(list, i + 1);
        }
        return None;
      }
      seen := seen + {KeyOf(r)};
      collected := collected[KeyOf(r) := r];
    }
    assert list[..|list|] == list;
    return Some(collected);
  }

  class MemorySelectedRegistry {
    var entries: Entries

    constructor ()
      ensures entries == map[]
    {
      entries := map[];
    }

    method Reserve(k: Key, zone: string, source: Source, tg: nat, rg: nat, iface: string, desired: RouteId)
      returns (ok: bool)
      modifies this
      ensures var next := Reservation(old(entries), k, zone, source, tg, rg, iface, desired);
              ok == next.Some? && entries == if ok then next.value else old(entries)
      ensures ok <==> k.role != "" && desired.Valid(k.prefix)
      ensures ok ==> k in entries && var r := entries[k];
                     && (k in old(entries) ==> KeyOf(r) == KeyOf(old(entries)[k])) && (k !in old(entries) ==> KeyOf(r) == k)
                     && r.zone == zone && r.source == source && r.toadGeneration == tg
                     && r.routeGeneration == rg && r.iface == iface && r.desired == desired
                     && (k in old(entries) ==>
                           var before := old(entries)[k];
                           && r.owned == before.owned && r.park == before.park && r.retireDesired == before.retireDesired
                           && r.state == if before.state == Active && before.desired != desired then Pending else before.state)
                     && (k !in old(entries) ==> r.state == Pending && r.owned.None? && r.park.None?)
    {
      if k.role == "" || !desired.Valid(k.prefix) {
        return false;
      }
      if k in entries {
        var r := entries[k];
        if r.desired == desired && r.zone == zone && r.source == source && r.iface == iface
           && r.toadGeneration == tg && r.routeGeneration == rg {
          // An identical reservation keeps the state.
          assert entries == entries[k := r];
          return true;
        }
        var next := r.(zone := zone, source := source, toadGeneration := tg, routeGeneration := rg, iface := iface,
                       desired := desired);
        if next.state == Active && r.desired != desired {
          next := next.(state := Pending);
        }
        entries := entries[k := next];
      } else {
        entries := entries[k := FreshRecord(k.role, zone, k.prefix, source, tg, rg, iface, desired)];
      }
      return true;
    }

    method Transition(k: Key, move: Move) returns (ok: bool)
      modifies this
      ensures var next := Transitioned(old(entries), k, move);
              ok == next.Some? && entries == if ok then next.value else old(entries)
      ensures ok <==> k.prefix.IsCanonical() && k in old(entries) && IsLegal(move, old(entries)[k])
      ensures ok ==> k in entries && Achieves(move, old(entries)[k], entries[k])
    {
      if !k.prefix.IsCanonical() || k !in entries {
        return false;
      }
      var next := Moved(entries[k], move);
      if next.None? {
        return false;
      }
      entries := entries[k := next.value];
      return true;
    }

    method Remove(k: Key)
      modifies this
      ensures entries == old(entries) - {k}
    {
      entries := entries - {k};
    }

    method RemoveRole(role: string)
      modifies this
      ensures entries == WithoutRole(old(entries), role)
    {
      var todo := entries.Keys;
      while todo != {}
        invariant todo <= entries.Keys <= old(entries).Keys
        invariant forall k <- old(entries) :: k in entries <==> k in todo || k.role != role
        invariant forall k <- entries :: entries[k] == old(entries)[k]
        decreases |todo|
      {
        var k :| k in todo;
        todo := todo - {k};
        if k.role == role {
          entries := entries - {k};
        }
      }
    }

    /** The records of one role, in some order. */
    method Snapshot(role: string) returns (out: seq<SelectedRoute>)
      requires forall k <- entries :: KeyOf(entries[k]) == k
      ensures NoDuplicates(out) && Listed(out) == Slice(entries, role)
    {
      out := [];
      var todo := entries.Keys;
      while todo != {}
        invariant todo <= entries.Keys
        invariant NoDuplicates(out) && forall r <- out :: KeyOf(r) !in todo
        invariant Listed(out) == map k | k in entries && k !in todo && k.role == role :: entries[k]
        decreases |todo|
      {
        var k :| k in todo;
        todo := todo - {k};
        if k.role == role {
          NoDuplicatesAppend(out, entries[k]);
          ListedAppend(out, entries[k]);
          out := out + [entries[k]];
        }
      }
    }

    /** Validates every entry before the map changes. */
    method RestoreRole(c: Checkpoint) returns (ok: bool)
      modifies this
      ensures var next := Restored(old(entries), c);
              ok == next.Some? && entries == if ok then next.value else old(entries)
    {
      if c.role == "" {
        return false;
      }
      var restored := Collect(EntryList(c));
      if restored.None? {
        return false;
      }
      entries := entries + restored.value;
      return true;
    }
  }

  // ----- every reachable registry is checkpointable -----

  datatype Call =
    | CallReserve(k: Key, zone: string, source: Source, tg: nat, rg: nat, iface: string, desired: RouteId)
    | CallTransition(key: Key, move: Move)
    | CallRemove(gone: Key)
    | CallRemoveRole(role: string)
    | CallRestore(checkpoint: Checkpoint)

  /** One call; an error leaves the registry as it was. */
  function After(m: Entries, call: Call): Entries {
    var next := match call
      case CallReserve(k, zone, source, tg, rg, iface, desired) =>
        Reservation(m, k, zone, source, tg, rg, iface, desired)
      case CallTransition(k, move) => Transitioned(m, k, move)
      case CallRemove(k) => Some(m - {k})
      case CallRemoveRole(role) => Some(WithoutRole(m, role))
      case CallRestore(c) => Restored(m, c);
    if next.Some? then next.value else m
  }

  /** What callers guarantee: real generations, host prefixes for DNS, and checkpoints that were validated. */
  predicate Admissible(call: Call) {
    match call
    case CallReserve(k, _, source, tg, rg, _, _) => tg != 0 && rg != 0 && (source == Dns ==> k.prefix.IsHost())
    case CallRestore(c) => ValidCheckpoint(c, c.role, "")
    case _ => true
  }

  function AfterAll(m: Entries, calls: seq<Call>): Entries {
    if calls == [] then m else After(AfterAll(m, calls[..|calls| - 1]), calls[|calls| - 1])
  }

  predicate EntryOk(m: Entries, k: Key) {
    k in m ==> KeyOf(m[k]) == k && ValidEntry(m[k], k.role, "")
  }

  /** Every record sits under its own key and would pass validation. */
  ghost predicate Checkpointable(m: Entries) {
    forall k :: EntryOk(m, k)
  }

  lemma MoveKeepsEntry(r: SelectedRoute, move: Move, role: string)
    requires ValidEntry(r, role, "") && Moved(r, move).Some?
    ensures ValidEntry(Moved(r, move).value, role, "") && KeyOf(Moved(r, move).value) == KeyOf(r)
  {
  }

  lemma RestoreKeepsEntries(m: Entries, c: Checkpoint, k: Key)
    requires EntryOk(m, k) && ValidCheckpoint(c, c.role, "")
    ensures EntryOk(m + Listed(EntryList(c)), k)
  {
    ListedHolds(EntryList(c));
    assert k in Listed(EntryList(c)) ==> ValidEntry(Listed(EntryList(c))[k], c.role, "");
  }

  lemma CallKeepsCheckpointable(m: Entries, call: Call)
    requires Checkpointable(m) && Admissible(call)
    ensures Checkpointable(After(m, call))
  {
    forall k
      ensures EntryOk(After(m, call), k)
    {
      assert EntryOk(m, k);
      match call
      case CallReserve(_, _, _, _, _, _, _) =>
      case CallTransition(key, move) =>
        if key == k && Transitioned(m, k, move).Some? {
          MoveKeepsEntry(m[k], move, k.role);
        }
      case CallRemove(_) =>
      case CallRemoveRole(_) =>
      case CallRestore(c) => RestoreKeepsEntries(m, c, k);
    }
  }

  /** The guarantee is needed: a reservation that succeeds keeps the registry checkpointable exactly when it is given. */
  lemma ReserveNeedsGuarantee(m: Entries, call: Call)
    requires Checkpointable(m) && call.CallReserve?
    requires call.k.role != "" && call.desired.Valid(call.k.prefix)
    ensures Checkpointable(After(m, call)) <==> Admissible(call)
  {
    assert EntryOk(m, call.k);
    assert EntryOk(After(m, call), call.k) ==> Admissible(call);
    if Admissible(call) {
      CallKeepsCheckpointable(m, call);
    }
  }

  /** Whatever admissible calls were made, in whatever order, legal or not. */
  lemma {:induction false} ReachableIsCheckpointable(calls: seq<Call>)
    requires forall call <- calls :: Admissible(call)
    ensures Checkpointable(AfterAll(map[], calls))
  {
    if calls != [] {
      var before, last := calls[..|calls| - 1], calls[|calls| - 1];
      assert forall call <- before :: call in calls;
      ReachableIsCheckpointable(before);
      CallKeepsCheckpointable(AfterAll(map[], before), last);
    }
  }

  /**
   The round trip: any listing of a role's slice makes a checkpoint that passes validation, and restoring it
   into an empty registry gives exactly that slice.
   */
  lemma RoundTrip(m: Entries, role: string, generation: nat, listing: seq<SelectedRoute>, platform: string)
    requires Checkpointable(m) && role != ""
    requires NoDuplicates(listing) && Listed(listing) == Slice(m, role)
    requires platform == PLATFORM_LINUX || platform == PLATFORM_WINDOWS
    ensures var c := Checkpoint(CHECKPOINT_SCHEMA, role, generation, Some(listing), platform);
            ValidCheckpoint(c, role, "") && Restored(map[], c) == Some(Slice(m, role))
  {
    forall r | r in listing
      ensures ValidEntry(r, role, "")
    {
      ListedMember(listing, r);
      assert EntryOk(m, KeyOf(r));
    }
    assert forall i | 0 <= i < |listing| :: ValidEntry(listing[i], role, "");
    assert map[] + Listed(listing) == Listed(listing);
  }

  lemma {:induction false} ListedMember(list: seq<SelectedRoute>, r: SelectedRoute)
    requires NoDuplicates(list) && r in list
    ensures KeyOf(r) in Listed(list) && Listed(list)[KeyOf(r)] == r
  {
    var before, last := list[..|list| - 1], list[|list| - 1];
    assert list == before + [last];
    if r != last {
      ListedMember(before, r);
      var j :| 0 <= j < |before| && before[j] == r;
      assert KeyOf(list[j]) != KeyOf(list[|list| - 1]);
    }
  }
}
