/**
 The C handle registry as interleaved threads.

 Every thread has a stack of C calls: a call made from inside a callback of a running operation
 sits on top of that operation. A step is one atomic action of one thread: a registry critical
 section, a lock attempt, a flag test, or the start or end of an operation body. All runs of all
 threads are covered, including re-entry through the recursive operation lock.
 */
module Handles {
  import opened Results

  type Handle = nat
  type Thread = nat

  const MAX_HANDLE: nat := 0xFFFF_FFFF_FFFF_FFFF

  /** The entry behind a handle; entries outlive their handle while a call retains them. */
  datatype Entry = Entry(owner: Option<Thread>, depth: nat, active: bool, closed: bool)

  /** Where a call stands: `Found` has looked the handle up, `Locked` owns the lock, the others passed their tests. */
  datatype Place = Found | Locked | Idle | Body

  datatype Call = Invoke(handle: Handle, place: Place) | Close(handle: Handle, place: Place)

  datatype State = State(
    next: Handle,
    registry: set<Handle>,
    entries: map<Handle, Entry>,
    stacks: map<Thread, seq<Call>>,
    closes: map<Handle, nat>)

  const START: State := State(1, {}, map[], map[], map[])

  function Stack(s: State, t: Thread): seq<Call> {
    if t in s.stacks then s.stacks[t] else []
  }

  predicate Holds(c: Call, h: Handle) {
    c.handle == h && !c.place.Found?
  }

  /** How many calls of a stack own the operation lock of `h`. */
  function Held(stack: seq<Call>, h: Handle): nat {
    if stack == [] then 0 else Held(Pop(stack), h) + (if Holds(Top(stack), h) then 1 else 0)
  }

  /** How many operation bodies of a stack run on `h`. */
  function Bodies(stack: seq<Call>, h: Handle): nat {
    if stack == [] then 0
    else Bodies(Pop(stack), h) + (if Top(stack).handle == h && Top(stack).place.Body? then 1 else 0)
  }

  predicate MayCall(stack: seq<Call>) {
    stack == [] || stack[|stack| - 1].place.Body?
  }

  function Top(stack: seq<Call>): Call
    requires stack != []
  {
    stack[|stack| - 1]
  }

  function Pop(stack: seq<Call>): seq<Call>
    requires stack != []
  {
    stack[..|stack| - 1]
  }

  function Released(e: Entry): Entry {
    if e.depth <= 1 then e.(owner := None, depth := 0) else e.(depth := e.depth - 1)
  }

  function Put(s: State, t: Thread, stack: seq<Call>): State {
    s.(stacks := s.stacks[t := stack])
  }

  datatype Action =
    | Open
    | Begin(call: Call)    // registry lookup of a new invoke or close
    | TryLock              // try_to_lock on the recursive operation lock
    | TestActive
    | TestClosed           // invoke only; on success the body starts
    | Erase                // close only; flag and erase under the registry lock
    | Finish               // the body returns

  /** Whether the call on top of a stack is at the place the action starts from. */
  predicate TopEnabled(stack: seq<Call>, a: Action) {
    && stack != []
    && match a
       case TryLock => Top(stack).place.Found?
       case TestActive => Top(stack).place.Locked?
       case TestClosed => Top(stack).Invoke? && Top(stack).place.Idle?
       case Erase => Top(stack).Close? && Top(stack).place.Idle?
       case Finish => Top(stack).place.Body?
       case _ => false
  }

  /** Whether thread `t` can take the action now. */
  predicate Enabled(s: State, t: Thread, a: Action) {
    var stack := Stack(s, t);
    match a
    case Open => MayCall(stack)
    case Begin(c) => MayCall(stack) && c.place.Found? && c.handle in s.registry
    case _ => TopEnabled(stack, a)
  }

  function Opened(s: State): State {
    if s.next == MAX_HANDLE then s
    else s.(next := s.next + 1,
            registry := s.registry + {s.next},
            entries := s.entries[s.next := Entry(None, 0, false, false)],
            closes := s.closes[s.next := 0])
  }

  /** What the call on top of a stack becomes, and its entry: `None` when the call returns. */
  function Moved(t: Thread, a: Action, c: Call, e: Entry): (Option<Call>, Entry) {
    match a
    case TryLock =>
      if e.owner == None || e.owner == Some(t) then
        (Some(c.(place := Locked)), e.(owner := Some(t), depth := e.depth + 1))
      else (None, e)
    case TestActive => if e.active then (None, Released(e)) else (Some(c.(place := Idle)), e)
    case TestClosed => if e.closed then (None, Released(e)) else (Some(c.(place := Body)), e.(active := true))
    case Erase => (None, Released(e.(closed := true)))
    case _ => (None, Released(e.(active := false)))
  }

  function Replaced(stack: seq<Call>, call: Option<Call>): seq<Call>
    requires stack != []
  {
    if call.Some? then Pop(stack) + [call.value] else Pop(stack)
  }

  /** The state after the action; a refused call leaves the stack with its lock given back. */
  function Next(s: State, t: Thread, a: Action): State
    requires Enabled(s, t, a)
  {
    var stack := Stack(s, t);
    if a.Open? then Opened(s)
    else if a.Begin? then Put(s, t, stack + [a.call])
    else
      var h := Top(stack).handle;
      if h !in s.entries then s else
      var (call, entry) := Moved(t, a, Top(stack), s.entries[h]);
      var moved := Put(s, t, Replaced(stack, call)).(entries := s.entries[h := entry]);
      if a.Erase? && h in s.registry && h in s.closes then
        moved.(registry := s.registry - {h}, closes := s.closes[h := s.closes[h] + 1])
      else moved
  }

  /* ------------------------------------------------------------------------------------------
     The invariant
     ------------------------------------------------------------------------------------------ */

  /** Only bodies have calls above them, every call names an issued handle, only invokes have bodies. */
  predicate StackOk(s: State, stack: seq<Call>) {
    && (forall i :: 0 <= i < |stack| ==> stack[i].handle in s.entries)
    && (forall i :: 0 <= i < |stack| - 1 ==> stack[i].place.Body?)
    && (forall i :: 0 <= i < |stack| ==> stack[i].place.Body? ==> stack[i].Invoke?)
  }

  /** Lock, activity and the calls of one thread agree about one entry. */
  predicate Agrees(e: Entry, stack: seq<Call>, t: Thread, h: Handle) {
    && Held(stack, h) == (if e.owner == Some(t) then e.depth else 0)
    && Bodies(stack, h) == (if e.owner == Some(t) && e.active then 1 else 0)
    && (stack != [] && Top(stack).handle == h && Top(stack).place.Idle? ==> !e.active)
  }

  /** The lock is owned while it is held; only an owned, open entry is active. */
  predicate EntryShape(e: Entry) {
    (e.owner == None <==> e.depth == 0) && (e.active ==> e.owner.Some? && !e.closed)
  }

  predicate EntryOk(s: State, h: Handle)
    requires h in s.entries && h in s.closes
  {
    var e := s.entries[h];
    && EntryShape(e)
    && (e.closed <==> h !in s.registry)
    && s.closes[h] == (if e.closed then 1 else 0)
  }

  ghost predicate Inv(s: State) {
    && 1 <= s.next <= MAX_HANDLE
    && (forall h :: h in s.entries <==> 1 <= h < s.next)
    && s.closes.Keys == s.entries.Keys
    && s.registry <= s.entries.Keys
    && (forall h :: h in s.entries ==> EntryOk(s, h))
    && (forall t :: StackOk(s, Stack(s, t)))
    && (forall t, h :: h in s.entries ==> Agrees(s.entries[h], Stack(s, t), t, h))
  }

  lemma CountTop(stack: seq<Call>, c: Call, h: Handle)
    ensures Held(stack + [c], h) == Held(stack, h) + (if Holds(c, h) then 1 else 0)
    ensures Bodies(stack + [c], h) == Bodies(stack, h) + (if c.handle == h && c.place.Body? then 1 else 0)
  {
    assert Pop(stack + [c]) == stack;
  }

  lemma {:induction false} AbsentHoldsNothing(stack: seq<Call>, h: Handle)
    requires forall i :: 0 <= i < |stack| ==> stack[i].handle != h
    ensures Held(stack, h) == 0 && Bodies(stack, h) == 0
  {
    if stack != [] {
      AbsentHoldsNothing(Pop(stack), h);
    }
  }

  lemma OpenKeeps(s: State)
    requires Inv(s)
    ensures Inv(Opened(s))
  {
    var s' := Opened(s);
    if s.next < MAX_HANDLE {
      forall t, h | h in s'.entries ensures Agrees(s'.entries[h], Stack(s', t), t, h) {
        assert StackOk(s, Stack(s, t));
        if h == s.next {
          AbsentHoldsNothing(Stack(s, t), h);
        } else {
          assert Agrees(s.entries[h], Stack(s, t), t, h);
        }
      }
      forall t ensures StackOk(s', Stack(s', t)) {
        assert StackOk(s, Stack(s, t));
      }
      forall h | h in s'.entries ensures EntryOk(s', h) {
        assert h in s.entries ==> EntryOk(s, h);
      }
    }
  }

  /** A call that has only been looked up holds nothing. */
  lemma PushedAgrees(e: Entry, stack: seq<Call>, t: Thread, c: Call, h: Handle)
    requires Agrees(e, stack, t, h) && c.place.Found?
    ensures Agrees(e, stack + [c], t, h)
  {
    CountTop(stack, c, h);
  }

  lemma BeginKeeps(s: State, t: Thread, c: Call)
    requires Inv(s) && Enabled(s, t, Begin(c))
    ensures Inv(Next(s, t, Begin(c)))
  {
    var s' := Next(s, t, Begin(c));
    forall u, h | h in s'.entries ensures Agrees(s'.entries[h], Stack(s', u), u, h) {
      assert Agrees(s.entries[h], Stack(s, u), u, h);
      if u == t {
        PushedAgrees(s.entries[h], Stack(s, t), t, c, h);
      }
    }
    forall u ensures StackOk(s', Stack(s', u)) {
      assert StackOk(s, Stack(s, u));
    }
    forall h | h in s'.entries ensures EntryOk(s', h) {
      assert EntryOk(s, h);
    }
  }

  lemma {:induction false} BodiesAreHeld(stack: seq<Call>, h: Handle)
    ensures Bodies(stack, h) <= Held(stack, h)
  {
    if stack != [] {
      BodiesAreHeld(Pop(stack), h);
    }
  }

  /** The moving thread and its own entry. */
  lemma OwnMoveAgrees(t: Thread, a: Action, stack: seq<Call>, e: Entry)
    requires TopEnabled(stack, a) && EntryShape(e) && Agrees(e, stack, t, Top(stack).handle)
    requires forall i :: 0 <= i < |stack| - 1 ==> stack[i].place.Body?
    ensures var (call, e') := Moved(t, a, Top(stack), e);
            Agrees(e', Replaced(stack, call), t, Top(stack).handle) && EntryShape(e')
  {
    var c, h := Top(stack), Top(stack).handle;
    var (call, e') := Moved(t, a, c, e);
    assert stack == Pop(stack) + [c];
    CountTop(Pop(stack), c, h);
    BodiesAreHeld(Pop(stack), h);
    if call.Some? {
      CountTop(Pop(stack), call.value, h);
    }
  }

  /** The moving thread and any other entry. */
  lemma OtherEntryAgrees(t: Thread, a: Action, stack: seq<Call>, e: Entry, own: Entry, h: Handle)
    requires TopEnabled(stack, a) && Agrees(e, stack, t, h) && h != Top(stack).handle
    requires forall i :: 0 <= i < |stack| - 1 ==> stack[i].place.Body?
    ensures var (call, _) := Moved(t, a, Top(stack), own); Agrees(e, Replaced(stack, call), t, h)
  {
    var c := Top(stack);
    var (call, _) := Moved(t, a, c, own);
    assert stack == Pop(stack) + [c];
    CountTop(Pop(stack), c, h);
    if call.Some? {
      CountTop(Pop(stack), call.value, h);
    }
  }

  /** Any other thread and the entry that moved. */
  lemma OtherThreadAgrees(t: Thread, a: Action, stack: seq<Call>, e: Entry, u: Thread, other: seq<Call>)
    requires TopEnabled(stack, a) && EntryShape(e) && u != t
    requires Agrees(e, stack, t, Top(stack).handle) && Agrees(e, other, u, Top(stack).handle)
    ensures var (_, e') := Moved(t, a, Top(stack), e); Agrees(e', other, u, Top(stack).handle)
  {
    var c, h := Top(stack), Top(stack).handle;
    assert stack == Pop(stack) + [c];
    CountTop(Pop(stack), c, h);
    if other != [] {
      assert other == Pop(other) + [Top(other)];
      CountTop(Pop(other), Top(other), h);
    }
  }

  lemma MoveKeeps(s: State, t: Thread, a: Action)
    requires Inv(s) && Enabled(s, t, a) && !a.Open? && !a.Begin?
    ensures Inv(Next(s, t, a))
  {
    var stack := Stack(s, t);
    assert StackOk(s, stack) && stack[|stack| - 1] == Top(stack);
    var own := Top(stack).handle;
    var e := s.entries[own];
    var (call, e') := Moved(t, a, Top(stack), e);
    assert EntryOk(s, own) && Agrees(e, stack, t, own);
    OwnMoveAgrees(t, a, stack, e);
    var s' := Next(s, t, a);
    forall u, h | h in s'.entries ensures Agrees(s'.entries[h], Stack(s', u), u, h) {
      assert Agrees(s.entries[h], Stack(s, u), u, h);
      if h == own && u != t {
        OtherThreadAgrees(t, a, stack, e, u, Stack(s, u));
      } else if h != own && u == t {
        OtherEntryAgrees(t, a, stack, s.entries[h], e, h);
      }
    }
    MoveKeepsStacks(s, t, a);
    MoveKeepsEntries(s, t, a);
  }

  lemma MoveKeepsStacks(s: State, t: Thread, a: Action)
    requires Inv(s) && Enabled(s, t, a) && !a.Open? && !a.Begin?
    ensures var s' := Next(s, t, a); forall u :: StackOk(s', Stack(s', u))
  {
    var s' := Next(s, t, a);
    forall u ensures StackOk(s', Stack(s', u)) {
      assert StackOk(s, Stack(s, u));
      assert StackOk(s, Stack(s, t));
    }
  }

  lemma MoveKeepsEntries(s: State, t: Thread, a: Action)
    requires Inv(s) && Enabled(s, t, a) && !a.Open? && !a.Begin?
    ensures var s' := Next(s, t, a);
            && s'.entries.Keys == s.entries.Keys == s'.closes.Keys
            && s'.registry <= s'.entries.Keys
            && forall h :: h in s'.entries ==> EntryOk(s', h)
  {
    var stack := Stack(s, t);
    assert StackOk(s, stack) && stack[|stack| - 1] == Top(stack);
    var own := Top(stack).handle;
    assert EntryOk(s, own) && Agrees(s.entries[own], stack, t, own);
    OwnMoveAgrees(t, a, stack, s.entries[own]);
    var s' := Next(s, t, a);
    forall h | h in s'.entries ensures EntryOk(s', h) {
      assert EntryOk(s, h);
    }
  }

  /** Every step of every thread keeps the invariant. */
  lemma StepKeeps(s: State, t: Thread, a: Action)
    requires Inv(s) && Enabled(s, t, a)
    ensures Inv(Next(s, t, a))
  {
    match a
    case Open => OpenKeeps(s);
    case Begin(c) => BeginKeeps(s, t, c);
    case _ => MoveKeeps(s, t, a);
  }

  /* ------------------------------------------------------------------------------------------
     Every interleaving
     ------------------------------------------------------------------------------------------ */

  /** A schedule is a run when each step was enabled where it was taken. */
  predicate IsRun(schedule: seq<(Thread, Action)>)
    decreases |schedule|, 0
  {
    schedule == [] ||
    (var n := |schedule| - 1; IsRun(schedule[..n]) && Enabled(After(schedule[..n]), schedule[n].0, schedule[n].1))
  }

  function After(schedule: seq<(Thread, Action)>): State
    requires IsRun(schedule)
    decreases |schedule|, 1
  {
    if schedule == [] then START
    else var n := |schedule| - 1; Next(After(schedule[..n]), schedule[n].0, schedule[n].1)
  }

  lemma {:induction false} RunKeeps(schedule: seq<(Thread, Action)>)
    requires IsRun(schedule)
    ensures Inv(After(schedule))
  {
    if schedule != [] {
      var n := |schedule| - 1;
      RunKeeps(schedule[..n]);
      StepKeeps(After(schedule[..n]), schedule[n].0, schedule[n].1);
    }
  }

  predicate RunsBody(s: State, t: Thread, i: nat, h: Handle) {
    var stack := Stack(s, t);
    i < |stack| && stack[i].handle == h && stack[i].place.Body?
  }

  lemma {:induction false} BodyIsCounted(stack: seq<Call>, i: nat, h: Handle)
    requires i < |stack| && stack[i].handle == h && stack[i].place.Body?
    ensures Bodies(stack, h) >= 1
    ensures forall j :: 0 <= j < |stack| && j != i && stack[j].handle == h && stack[j].place.Body? ==>
              Bodies(stack, h) >= 2
  {
    if i < |stack| - 1 {
      BodyIsCounted(Pop(stack), i, h);
    } else {
      forall j | 0 <= j < |stack| && j != i && stack[j].handle == h && stack[j].place.Body?
        ensures Bodies(stack, h) >= 2
      {
        BodyIsCounted(Pop(stack), j, h);
      }
    }
  }

  /** Theorem: at most one operation body runs per handle, whatever the threads and callbacks do. */
  lemma MutualExclusion(schedule: seq<(Thread, Action)>, h: Handle, t: Thread, i: nat, u: Thread, j: nat)
    requires IsRun(schedule)
    requires RunsBody(After(schedule), t, i, h) && RunsBody(After(schedule), u, j, h)
    ensures t == u && i == j
  {
    var s := After(schedule);
    RunKeeps(schedule);
    assert StackOk(s, Stack(s, t));
    assert Agrees(s.entries[h], Stack(s, t), t, h) && Agrees(s.entries[h], Stack(s, u), u, h);
    BodyIsCounted(Stack(s, t), i, h);
    BodyIsCounted(Stack(s, u), j, h);
  }

  /** Theorem: no body runs on a handle once a close of it succeeded, nor while a close has the entry. */
  lemma NoBodyAroundClose(schedule: seq<(Thread, Action)>, h: Handle, t: Thread, i: nat)
    requires IsRun(schedule) && RunsBody(After(schedule), t, i, h)
    ensures var s := After(schedule);
            && h in s.closes && s.closes[h] == 0 && h in s.registry
            && forall u :: Stack(s, u) != [] ==> Top(Stack(s, u)) != Close(h, Idle)
  {
    var s := After(schedule);
    RunKeeps(schedule);
    assert StackOk(s, Stack(s, t));
    assert Agrees(s.entries[h], Stack(s, t), t, h) && EntryOk(s, h);
    BodyIsCounted(Stack(s, t), i, h);
    forall u | Stack(s, u) != [] ensures Top(Stack(s, u)) != Close(h, Idle) {
      assert Agrees(s.entries[h], Stack(s, u), u, h);
    }
  }

  /** Some close of `h` got past its tests and reached the registry during the run. */
  predicate CloseReachedRegistry(schedule: seq<(Thread, Action)>, h: Handle)
    requires IsRun(schedule)
  {
    schedule != [] &&
    var n := |schedule| - 1;
    || CloseReachedRegistry(schedule[..n], h)
    || (schedule[n].1.Erase? && Top(Stack(After(schedule[..n]), schedule[n].0)).handle == h)
  }

  lemma StepCountsCloses(s: State, t: Thread, a: Action, h: Handle)
    requires Inv(s) && Enabled(s, t, a) && h in s.entries
    ensures var s' := Next(s, t, a);
            && h in s'.entries
            && s'.entries[h].closed == (s.entries[h].closed || (a.Erase? && Top(Stack(s, t)).handle == h))
  {
    assert StackOk(s, Stack(s, t));
    assert EntryOk(s, h);
  }

  /**
   Theorem: exactly one of any number of racing closes of a handle succeeds. The count of
   successful closes is one as soon as any close reached the registry, and it stays one.
   */
  lemma {:induction false} ExactlyOneCloseSucceeds(schedule: seq<(Thread, Action)>, h: Handle)
    requires IsRun(schedule) && h in After(schedule).entries
    ensures var s := After(schedule);
            && h in s.closes
            && s.closes[h] == (if CloseReachedRegistry(schedule, h) then 1 else 0)
            && (h in s.registry <==> !CloseReachedRegistry(schedule, h))
  {
    RunKeeps(schedule);
    var n := |schedule| - 1;
    var front := schedule[..n];
    RunKeeps(front);
    assert EntryOk(After(schedule), h);
    if h in After(front).entries {
      ExactlyOneCloseSucceeds(front, h);
      assert EntryOk(After(front), h);
      StepCountsCloses(After(front), schedule[n].0, schedule[n].1, h);
    } else {
      NeverOpenedNeverClosed(front, h);
      assert StackOk(After(front), Stack(After(front), schedule[n].0));
    }
  }

  lemma {:induction false} NeverOpenedNeverClosed(schedule: seq<(Thread, Action)>, h: Handle)
    requires IsRun(schedule) && h !in After(schedule).entries
    ensures !CloseReachedRegistry(schedule, h)
  {
    if schedule != [] {
      var n := |schedule| - 1;
      RunKeeps(schedule[..n]);
      assert StackOk(After(schedule[..n]), Stack(After(schedule[..n]), schedule[n].0));
      NeverOpenedNeverClosed(schedule[..n], h);
    }
  }

  /** Theorem: a handle given out is nonzero, never given out before and larger than every earlier one. */
  lemma HandlesAreNeverReused(schedule: seq<(Thread, Action)>, t: Thread)
    requires IsRun(schedule) && Enabled(After(schedule), t, Open)
    ensures var s, s' := After(schedule), Next(After(schedule), t, Open);
            if s.next == MAX_HANDLE then s' == s
            else s.next > 0 && s.next !in s.entries && s'.registry == s.registry + {s.next} && s.next in s'.entries &&
                 s'.entries[s.next] == Entry(None, 0, false, false) && forall g :: g in s.entries ==> g < s.next
  {
    RunKeeps(schedule);
  }

  /* ------------------------------------------------------------------------------------------
     Calls get through, and are refused for a reason
     ------------------------------------------------------------------------------------------ */

  /** A move of the call on top of a stack, seen from its thread and its entry. */
  lemma MoveSeen(s: State, t: Thread, a: Action)
    requires Inv(s) && Enabled(s, t, a) && !a.Open? && !a.Begin?
    ensures var h := Top(Stack(s, t)).handle;
            && h in s.entries && h in Next(s, t, a).entries
            && var (call, entry) := Moved(t, a, Top(Stack(s, t)), s.entries[h]);
               Stack(Next(s, t, a), t) == Replaced(Stack(s, t), call) && Next(s, t, a).entries[h] == entry
  {
    var stack := Stack(s, t);
    assert StackOk(s, stack) && stack[|stack| - 1] == Top(stack);
  }

  /** The call on top of a stack returned without doing what it was called for. */
  predicate Refused(s: State, t: Thread, a: Action)
    requires Enabled(s, t, a) && Stack(s, t) != []
  {
    Stack(Next(s, t, a), t) == Pop(Stack(s, t))
  }

  /**
   Theorem: a call is refused exactly when the lock is another thread's, when the entry is active, or, for
   an invoke, when it is closed; otherwise it moves on, and an invoke that passes its last test runs its body.
   */
  lemma RefusedForAReason(s: State, t: Thread, a: Action)
    requires Inv(s) && Enabled(s, t, a) && (a.TryLock? || a.TestActive? || a.TestClosed?)
    ensures var h := Top(Stack(s, t)).handle;
            && h in s.entries
            && (a.TryLock? ==> (Refused(s, t, a) <==> s.entries[h].owner.Some? && s.entries[h].owner.value != t))
            && (a.TestActive? ==> (Refused(s, t, a) <==> s.entries[h].active))
            && (a.TestClosed? ==> (Refused(s, t, a) <==> s.entries[h].closed))
            && (a.TestClosed? && !Refused(s, t, a) ==>
                  RunsBody(Next(s, t, a), t, |Stack(s, t)| - 1, h) && Next(s, t, a).entries[h].active)
            && (a.TestActive? && !Refused(s, t, a) ==> Top(Stack(Next(s, t, a), t)) == Top(Stack(s, t)).(place := Idle))
            && (a.TryLock? && !Refused(s, t, a) ==> Top(Stack(Next(s, t, a), t)) == Top(Stack(s, t)).(place := Locked))
  {
    MoveSeen(s, t, a);
    var stack, after := Stack(s, t), Stack(Next(s, t, a), t);
    assert |after| == |stack| ==> after[|stack| - 1] == Top(after);
  }

  /** A call looked up on a live handle gets to its last test if nobody holds the entry. */
  lemma GetsToItsLastTest(s: State, t: Thread, c: Call) returns (s1: State, s2: State, s3: State)
    requires Inv(s) && MayCall(Stack(s, t)) && c.place.Found? && c.handle in s.registry
    requires s.entries[c.handle].owner == None
    ensures Enabled(s, t, Begin(c)) && s1 == Next(s, t, Begin(c))
    ensures Enabled(s1, t, TryLock) && s2 == Next(s1, t, TryLock)
    ensures Enabled(s2, t, TestActive) && s3 == Next(s2, t, TestActive)
    ensures Inv(s3) && Stack(s3, t) == Stack(s, t) + [c.(place := Idle)]
    ensures s3.registry == s.registry && !s3.entries[c.handle].closed && s3.entries[c.handle].depth == 1
  {
    var stack, h := Stack(s, t), c.handle;
    s1 := Next(s, t, Begin(c));
    StepKeeps(s, t, Begin(c));
    assert EntryOk(s, h) && Stack(s1, t) == stack + [c];
    s2 := Next(s1, t, TryLock);
    StepKeeps(s1, t, TryLock);
    MoveSeen(s1, t, TryLock);
    assert Pop(stack + [c]) == stack;
    assert Stack(s2, t) == stack + [c.(place := Locked)];
    s3 := Next(s2, t, TestActive);
    StepKeeps(s2, t, TestActive);
    MoveSeen(s2, t, TestActive);
    assert Pop(stack + [c.(place := Locked)]) == stack;
    assert EntryOk(s3, h);
  }

  /** Theorem: an invoke on a live handle that nobody holds runs its body. */
  lemma InvokeRuns(s: State, t: Thread, h: Handle)
    returns (s1: State, s2: State, s3: State, s4: State)
    requires Inv(s) && MayCall(Stack(s, t)) && h in s.registry && s.entries[h].owner == None
    ensures Enabled(s, t, Begin(Invoke(h, Found))) && s1 == Next(s, t, Begin(Invoke(h, Found)))
    ensures Enabled(s1, t, TryLock) && s2 == Next(s1, t, TryLock)
    ensures Enabled(s2, t, TestActive) && s3 == Next(s2, t, TestActive)
    ensures Enabled(s3, t, TestClosed) && s4 == Next(s3, t, TestClosed)
    ensures RunsBody(s4, t, |Stack(s, t)|, h) && s4.entries[h].active && s4.entries[h].owner == Some(t)
  {
    s1, s2, s3 := GetsToItsLastTest(s, t, Invoke(h, Found));
    s4 := Next(s3, t, TestClosed);
    MoveSeen(s3, t, TestClosed);
    assert Pop(Stack(s3, t)) == Stack(s, t);
    assert Agrees(s3.entries[h], Stack(s3, t), t, h);
    CountTop(Stack(s, t), Invoke(h, Idle), h);
  }

  lemma EraseSeen(s: State, t: Thread)
    requires Inv(s) && Enabled(s, t, Erase) && Top(Stack(s, t)).handle in s.registry
    requires s.entries[Top(Stack(s, t)).handle].depth == 1
    ensures var h, s' := Top(Stack(s, t)).handle, Next(s, t, Erase);
            && s'.registry == s.registry - {h} && Stack(s', t) == Pop(Stack(s, t))
            && h in s'.entries && s'.entries[h].closed && s'.entries[h].owner == None
  {
    MoveSeen(s, t, Erase);
  }

  /** Theorem: a close of a live handle that nobody holds takes it out of the registry and gives the lock back. */
  lemma CloseErases(s: State, t: Thread, h: Handle)
    returns (s1: State, s2: State, s3: State, s4: State)
    requires Inv(s) && MayCall(Stack(s, t)) && h in s.registry && s.entries[h].owner == None
    ensures Enabled(s, t, Begin(Close(h, Found))) && s1 == Next(s, t, Begin(Close(h, Found)))
    ensures Enabled(s1, t, TryLock) && s2 == Next(s1, t, TryLock)
    ensures Enabled(s2, t, TestActive) && s3 == Next(s2, t, TestActive)
    ensures Enabled(s3, t, Erase) && s4 == Next(s3, t, Erase)
    ensures Inv(s4) && s4.registry == s.registry - {h} && h in s4.closes && s4.closes[h] == 1
    ensures Stack(s4, t) == Stack(s, t) && s4.entries[h].closed && s4.entries[h].owner == None
  {
    s1, s2, s3 := GetsToItsLastTest(s, t, Close(h, Found));
    s4 := Next(s3, t, Erase);
    StepKeeps(s3, t, Erase);
    EraseSeen(s3, t);
    assert Pop(Stack(s3, t)) == Stack(s, t);
    assert EntryOk(s4, h);
  }

  /** Theorem: the end of a body gives the entry back as its call found it. */
  lemma BodyEnds(s: State, t: Thread)
    requires Inv(s) && Enabled(s, t, Finish)
    ensures var h, s' := Top(Stack(s, t)).handle, Next(s, t, Finish);
            && h in s.entries && h in s'.entries && Stack(s', t) == Pop(Stack(s, t)) && !s'.entries[h].active
            && (s.entries[h].depth == 1 ==> s'.entries[h].owner == None)
            && s'.registry == s.registry && s'.entries[h].closed == s.entries[h].closed
  {
    MoveSeen(s, t, Finish);
  }
}
