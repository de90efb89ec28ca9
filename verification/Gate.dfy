/**
 The admission gate of a role: how a freeze drains the calls in flight. Every method is one critical section
 under the manager's mutex, so the calls in any order are all the interleavings. A freeze is two sections, with
 a wait on the zero signal in between.
 */
module Gate {
  import opened Identity

  /** What a freezing caller holds while it waits: the zero signal it captured, and when. */
  datatype Ticket = Ticket(signal: Option<nat>, thaws: nat)

  class RoleGate {
    var frozen: bool
    var inFlight: nat
    /** The current zero signal, if any was made yet. */
    var signal: Option<nat>
    /** Signals are numbered in the order they are made; a closed one stays closed. */
    var made: nat
    var closed: set<nat>
    /** The admitted Ensure calls still running, the other calls, and the number of thaws so far. */
    ghost var ensuring: set<nat>
    ghost var others: set<nat>
    ghost var thaws: nat

    ghost predicate Open()
      reads this
    {
      signal.Some? && signal.value !in closed
    }

    /** The zero signal is open exactly while a call is in flight; every older signal is closed. */
    ghost predicate Valid()
      reads this
    {
      && inFlight == |ensuring| + |others|
      && (Open() <==> inFlight > 0)
      && (signal.Some? <==> made > 0) && (signal.Some? ==> signal.value == made - 1)
      && (forall c: nat :: c in closed <==> c < made && !(Open() && signal == Some(c)))
    }

    /** As long as nobody thawed: the role is frozen, and what still runs keeps the captured signal open. */
    ghost predicate Holds(t: Ticket)
      reads this
    {
      t.thaws <= thaws && (t.thaws == thaws ==> frozen && (ensuring != {} ==> t.signal == signal))
    }

    constructor ()
      ensures Valid() && !frozen && ensuring == {} && others == {}
    {
      frozen, inFlight, signal, made, closed := false, 0, None, 0, {};
      ensuring, others, thaws := {}, {}, 0;
    }

    method BeginFlight()
      modifies `inFlight, `signal, `made
      ensures inFlight == old(inFlight) + 1
      ensures if old(inFlight) == 0 then signal == Some(old(made)) && made == old(made) + 1
              else signal == old(signal) && made == old(made)
    {
      if inFlight == 0 {
        signal, made := Some(made), made + 1;
      }
      inFlight := inFlight + 1;
    }

    /** Closing needs an open signal: a second close is a run-time panic. */
    method Close()
      requires Open()
      modifies `closed
      ensures closed == old(closed) + {signal.value}
    {
      closed := closed + {signal.value};
    }

    method EndFlight()
      requires inFlight > 0 && Open()
      modifies `inFlight, `closed
      ensures inFlight == old(inFlight) - 1
      ensures closed == if inFlight == 0 then old(closed) + {signal.value} else old(closed)
    {
      inFlight := inFlight - 1;
      if inFlight == 0 {
        Close();
      }
    }

    /** Admits an Ensure, unless the role is frozen. */
    method BeginEnsure(ghost id: nat) returns (admitted: bool)
      requires Valid() && id !in ensuring
      modifies this
      ensures Valid() && admitted == !old(frozen)
      ensures ensuring == if admitted then old(ensuring) + {id} else old(ensuring)
      ensures others == old(others) && frozen == old(frozen) && thaws == old(thaws)
      ensures made >= old(made) && forall t :: old(Holds(t)) ==> Holds(t)
    {
      if frozen {
        return false;
      }
      BeginFlight();
      ensuring := ensuring + {id};
      return true;
    }

    method EndEnsure(ghost id: nat)
      requires Valid() && id in ensuring
      modifies this
      ensures Valid() && ensuring == old(ensuring) - {id}
      ensures others == old(others) && frozen == old(frozen) && thaws == old(thaws)
      ensures made >= old(made) && forall t :: old(Holds(t)) ==> Holds(t)
    {
      EndFlight();
      ensuring := ensuring - {id};
    }

    /** Forget and FlushZone take a slot whether or not the role is frozen. */
    method BeginOther(ghost id: nat)
      requires Valid() && id !in others
      modifies this
      ensures Valid() && others == old(others) + {id}
      ensures ensuring == old(ensuring) && frozen == old(frozen) && thaws == old(thaws)
      ensures made >= old(made) && forall t :: old(Holds(t)) ==> Holds(t)
    {
      BeginFlight();
      others := others + {id};
    }

    method EndOther(ghost id: nat)
      requires Valid() && id in others
      modifies this
      ensures Valid() && others == old(others) - {id}
      ensures ensuring == old(ensuring) && frozen == old(frozen) && thaws == old(thaws)
      ensures made >= old(made) && forall t :: old(Holds(t)) ==> Holds(t)
    {
      EndFlight();
      others := others - {id};
    }

    /** First half of a freeze: no new Ensure from here on. The caller takes the current signal along. */
    method BeginFreeze() returns (captured: Option<nat>, ghost t: Ticket)
      requires Valid()
      modifies `frozen
      ensures Valid() && frozen && Holds(t) && t == Ticket(captured, thaws)
      ensures captured.Some? ==> captured.value < made
      ensures forall t' :: old(Holds(t')) ==> Holds(t')
    {
      frozen, captured, t := true, signal, Ticket(signal, thaws);
    }

    /**
     Second half: passes once the captured signal is closed, or none existed. Then, unless the role was thawed
     meanwhile, no admitted Ensure is running and none is admitted. It passes whenever nothing is in flight,
     and a cancelled wait leaves the role frozen.
     */
    method FinishFreeze(captured: Option<nat>, ghost t: Ticket) returns (drained: bool)
      requires Valid() && Holds(t) && t.signal == captured && (captured.Some? ==> captured.value < made)
      ensures drained && t.thaws == thaws ==> frozen && ensuring == {}
      ensures inFlight == 0 ==> drained
      ensures t.thaws == thaws ==> frozen
    {
      drained := captured.None? || captured.value in closed;
    }

    /** Unfreeze, or the end of the startup restore. */
    method Thaw()
      requires Valid()
      modifies `frozen, `thaws
      ensures Valid() && !frozen && thaws == old(thaws) + 1
      ensures made >= old(made) && forall t :: old(Holds(t)) ==> Holds(t)
    {
      frozen, thaws := false, thaws + 1;
    }
  }
}
