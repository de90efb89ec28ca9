/**
 Route invalidations and their debounced folding. A batch may escalate to everything, but it must carry
 the newest sequence and clear at least what its events would clear one by one.
 */
module Observation {
  import opened Identity

  datatype Scope = OnePrefix(prefix: Prefix) | OneInterface(ifIndex: int) | Everything

  datatype Event = Event(scope: Scope, sequence: nat)

  /** In-memory proof that the exact row of one prefix was read back. */
  datatype Token = Token(toadGeneration: nat, routeGeneration: nat, identity: RouteId)

  /** The scope clears a token of prefix p with this identity. */
  predicate Clears(scope: Scope, p: Prefix, id: RouteId) {
    match scope
    case OnePrefix(q) => p == q
    case OneInterface(i) => id.ifIndex == i
    case Everything => true
  }

  function Max(a: nat, b: nat): nat {
    if a > b then a else b
  }

  /** The union of two scopes, as far as one scope can express it. */
  function Merge(a: Event, b: Event): Event {
    Event(if a.scope == b.scope then a.scope else Everything, Max(a.sequence, b.sequence))
  }

  predicate IsGap(batch: Event, next: Event) {
    next.sequence > batch.sequence && next.sequence != batch.sequence + 1
  }

  function Absorb(batch: Event, next: Event): Event {
    if IsGap(batch, next) then Event(Everything, next.sequence) else Merge(batch, next)
  }

  function Fold(batch: Event, rest: seq<Event>): Event
    decreases |rest|
  {
    if rest == [] then batch else Fold(Absorb(batch, rest[0]), rest[1..])
  }

  lemma {:induction false} FoldAppend(batch: Event, rest: seq<Event>, next: Event)
    ensures Fold(batch, rest + [next]) == Absorb(Fold(batch, rest), next)
    decreases |rest|
  {
    if rest == [] {
      assert (rest + [next])[1..] == [];
    } else {
      assert (rest + [next])[1..] == rest[1..] + [next];
      FoldAppend(Absorb(batch, rest[0]), rest[1..], next);
    }
  }

  /** Drains the events that arrived during the debounce window into one batch. */
  method Debounce(first: Event, arrived: seq<Event>) returns (batch: Event)
    ensures batch == Fold(first, arrived)
  {
    batch := first;
    for i := 0 to |arrived|
      invariant batch == Fold(first, arrived[..i])
    {
      var next := arrived[i];
      assert arrived[..i + 1] == arrived[..i] + [next];
      FoldAppend(first, arrived[..i], next);
      if next.sequence != batch.sequence + 1 && next.sequence > batch.sequence {
        batch := Event(Everything, next.sequence);
        continue;
      }
      if next.sequence > batch.sequence {
        batch := batch.(sequence := next.sequence);
      }
      batch := Merge(batch, next);
    }
    assert arrived[..|arrived|] == arrived;
  }

  function Newest(first: Event, rest: seq<Event>): (r: nat)
    ensures first.sequence <= r && forall e <- rest :: e.sequence <= r
    ensures first.sequence == r || exists e <- rest :: e.sequence == r
  {
    if rest == [] then first.sequence
    else
      assert rest == rest[..|rest| - 1] + [rest[|rest| - 1]];
      Max(Newest(first, rest[..|rest| - 1]), rest[|rest| - 1].sequence)
  }

  /** Event i has the scope of the first one and leaves no gap after the newest event before it. */
  predicate Follows(first: Event, rest: seq<Event>, i: nat)
    requires i < |rest|
  {
    rest[i].scope == first.scope && rest[i].sequence <= Newest(first, rest[..i]) + 1
  }

  predicate AllFollow(first: Event, rest: seq<Event>) {
    forall i | 0 <= i < |rest| :: Follows(first, rest, i)
  }

  lemma AllFollowAppend(first: Event, before: seq<Event>, last: Event)
    ensures AllFollow(first, before + [last]) <==>
            AllFollow(first, before) && last.scope == first.scope && last.sequence <= Newest(first, before) + 1
  {
    var rest := before + [last];
    forall i | 0 <= i < |before|
      ensures Follows(first, rest, i) == Follows(first, before, i)
    {
      assert rest[..i] == before[..i];
    }
    assert rest[..|before|] == before;
    assert Follows(first, rest, |before|) <==>
           last.scope == first.scope && last.sequence <= Newest(first, before) + 1;
  }

  /** Debouncing is exact: the newest sequence, and one scope unless the scopes differ or an event is missing. */
  lemma {:induction false} FoldIsExact(first: Event, rest: seq<Event>)
    ensures Fold(first, rest) ==
            Event(if AllFollow(first, rest) then first.scope else Everything, Newest(first, rest))
    decreases |rest|
  {
    if rest != [] {
      var last, before := rest[|rest| - 1], rest[..|rest| - 1];
      assert rest == before + [last];
      FoldAppend(first, before, last);
      FoldIsExact(first, before);
      AllFollowAppend(first, before, last);
    }
  }

  /** Debouncing is conservative: every token that some event alone would clear is cleared. */
  lemma FoldIsConservative(first: Event, rest: seq<Event>, p: Prefix, id: RouteId)
    ensures Clears(first.scope, p, id) ==> Clears(Fold(first, rest).scope, p, id)
    ensures forall e <- rest :: Clears(e.scope, p, id) ==> Clears(Fold(first, rest).scope, p, id)
  {
    FoldIsExact(first, rest);
    forall e | e in rest && Clears(e.scope, p, id)
      ensures Clears(Fold(first, rest).scope, p, id)
    {
      var i :| 0 <= i < |rest| && rest[i] == e;
      assert AllFollow(first, rest) ==> Follows(first, rest, i);
    }
  }
}
