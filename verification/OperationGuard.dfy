/**
 Recursive-entry-aware admission of card operations.

 A guard takes the card's recursive lock, so a second thread waits while any guard is alive; the
 same thread gets in again and reads the shared flag to learn that it is nested.
 */
module OperationGuard {
  import opened Results

  type Thread = nat

  class Admission {
    var owner: Option<Thread>
    var entered: seq<bool>
    var active: bool

    /** The flag is up exactly while a guard is alive, and exactly the outermost guard is entered. */
    ghost predicate Valid()
      reads this
    {
      && (active <==> entered != [])
      && (owner.Some? <==> entered != [])
      && (forall i :: 0 <= i < |entered| ==> (entered[i] <==> i == 0))
    }

    function Seen(): View
      reads this
    {
      View(owner, |entered|, active)
    }

    constructor ()
      ensures Valid() && entered == [] && owner == None && !active
    {
      owner, entered, active := None, [], false;
    }

    /** Construct a guard: the lock must be free or already this thread's. */
    method Enter(t: Thread) returns (admitted: bool)
      requires Valid() && (owner == None || owner == Some(t))
      modifies this
      ensures Valid() && owner == Some(t) && entered == old(entered) + [admitted]
      ensures admitted <==> old(entered) == []
    {
      owner := Some(t);
      admitted := !active;
      if admitted {
        active := true;
      }
      entered := entered + [admitted];
    }

    /** Destroy the innermost guard: only the outermost one clears the flag. */
    method Leave(t: Thread)
      requires Valid() && owner == Some(t)
      modifies this
      ensures Valid() && entered == old(entered)[..|old(entered)| - 1]
      ensures owner == (if entered == [] then None else Some(t))
    {
      if entered[|entered| - 1] {
        active := false;
      }
      entered := entered[..|entered| - 1];
      if entered == [] {
        owner := None;
      }
    }
  }

  datatype Event = Construct(thread: Thread) | Destroy(thread: Thread)

  /** What an observer sees before an event: the lock's owner, the number of live guards, the flag. */
  datatype View = View(owner: Option<Thread>, alive: nat, active: bool)

  /** An event of a thread that would have to wait, or has no guard to destroy, changes nothing. */
  predicate Possible(before: View, event: Event) {
    match event
    case Construct(t) => before.owner == None || before.owner == Some(t)
    case Destroy(t) => before.owner == Some(t)
  }

  /** The flag is up, and the lock owned, exactly while guards are alive. */
  predicate Agrees(v: View) {
    (v.active <==> v.alive > 0) && (v.owner.Some? <==> v.alive > 0)
  }

  /** How one event may change what is seen, and whether its guard is admitted. */
  predicate Follows(before: View, event: Event, after: View, admitted: bool) {
    match event
    case Construct(t) =>
      if before.owner == None || before.owner == Some(t) then
        && after.alive == before.alive + 1 && after.owner == Some(t)
        && (admitted <==> before.alive == 0)
      else after == before && !admitted
    case Destroy(t) =>
      && !admitted
      && if before.owner == Some(t) then
           after.alive == before.alive - 1 && after.owner == if after.alive == 0 then None else Some(t)
         else after == before
  }

  /** Let one event happen, if it is possible. */
  method Happen(card: Admission, event: Event) returns (admitted: bool)
    requires card.Valid()
    modifies card
    ensures card.Valid() && Agrees(card.Seen())
    ensures Follows(old(card.Seen()), event, card.Seen(), admitted)
  {
    admitted := false;
    if Possible(card.Seen(), event) {
      match event
      case Construct(t) => admitted := card.Enter(t);
      case Destroy(t) => card.Leave(t);
    }
  }

  /**
   Theorem: over any schedule of any threads, the flag is up exactly while guards are alive, all of
   one thread; a guard is admitted exactly when no other is alive; and between two admitted guards
   the first one's whole nest has been destroyed.
   */
  method Drive(events: seq<Event>) returns (views: seq<View>, admitted: seq<bool>)
    ensures |views| == |events| + 1 && |admitted| == |events| && views[0] == View(None, 0, false)
    ensures forall i :: 0 <= i <= |events| ==> Agrees(views[i])
    ensures forall i :: 0 <= i < |events| ==> Follows(views[i], events[i], views[i + 1], admitted[i])
  {
    var card := new Admission();
    views, admitted := [View(None, 0, false)], [];
    for n := 0 to |events|
      invariant card.Valid() && fresh(card) && |views| == n + 1 && |admitted| == n
      invariant views[0] == View(None, 0, false) && views[n] == card.Seen()
      invariant forall i :: 0 <= i <= n ==> Agrees(views[i])
      invariant forall i :: 0 <= i < n ==> Follows(views[i], events[i], views[i + 1], admitted[i])
    {
      var entered := Happen(card, events[n]);
      views, admitted := views + [card.Seen()], admitted + [entered];
    }
  }
}
