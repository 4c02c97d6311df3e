/** What a transaction is meant to send, and the arithmetic of its single deadline. */
module TransactionPlan {
  import opened Results
  import opened CardTrace
  import opened Reader

  const MAX_OPERATIONS: nat := 128
  const MAX_FILE: nat := 31
  const NANOSECONDS_PER_MILLISECOND: nat := 1_000_000

  predicate IsTransactionalMutation(c: Command) {
    && c.valid
    && IsMutationOpcode(c.opcode)
    && c.header != [] && c.header[0] <= MAX_FILE
    && c.minimumResponse == 0 && c.maximumResponse == 0
    && !c.invalidatesSession
  }

  /** The file has a transactional type for this mutation and the mode agrees, which clearing records need not. */
  predicate Suits(c: Command, settings: FileSettings) {
    Stages(c.opcode, settings.fileType) && (c.opcode == 0xEB || c.requestMode == settings.communication)
  }

  function SettingsQuery(file: nat): Command {
    Command(GET_FILE_SETTINGS, [file], [], Mac, 6, 128)
  }

  function CommitCommand(returnMac: bool): Command {
    if returnMac then Command(COMMIT, [1], [], Mac, 12, 12) else Command(COMMIT, [], [], Mac, 0, 0)
  }

  predicate Mutations(operations: seq<Command>) {
    forall i :: 0 <= i < |operations| ==> IsTransactionalMutation(operations[i])
  }

  /** What a transaction is made of, byte for byte. */
  lemma MutationsMean(operations: seq<Command>)
    ensures Mutations(operations) <==>
            forall i :: 0 <= i < |operations| ==>
              var c := operations[i];
              && c.valid && c.opcode in {0x0C, 0xDC, 0x1C, 0x3B, 0xDB, 0xEB, 0x3D}
              && c.header != [] && c.header[0] <= 31
              && c.minimumResponse == 0 && c.maximumResponse == 0 && !c.invalidatesSession
  {
    forall i | 0 <= i < |operations|
      ensures IsTransactionalMutation(operations[i]) <==>
              var c := operations[i];
              && c.valid && c.opcode in {0x0C, 0xDC, 0x1C, 0x3B, 0xDB, 0xEB, 0x3D}
              && c.header != [] && c.header[0] <= 31
              && c.minimumResponse == 0 && c.maximumResponse == 0 && !c.invalidatesSession
    {
    }
  }

  /** Each file the first `n` operations touch, once, in order of first use. */
  function QueriedFiles(operations: seq<Command>, n: nat): seq<nat>
    requires Mutations(operations) && n <= |operations|
  {
    if n == 0 then []
    else
      var before := QueriedFiles(operations, n - 1);
      var file := operations[n - 1].header[0];
      if file in before then before else before + [file]
  }

  /** How many settings queries a transaction of these operations makes. */
  function QueryCount(operations: seq<Command>): nat
    requires Mutations(operations)
  {
    |QueriedFiles(operations, |operations|)|
  }

  function Queries(files: seq<nat>): (r: seq<Request>)
    ensures |r| == |files|
  {
    seq(|files|, i requires 0 <= i < |files| => Native(SettingsQuery(files[i])))
  }

  function Sends(operations: seq<Command>): (r: seq<Request>)
    ensures |r| == |operations|
  {
    seq(|operations|, i requires 0 <= i < |operations| => Native(operations[i]))
  }

  /** Everything a successful transaction sends: settings queries, the mutations in order, one commit. */
  function Plan(operations: seq<Command>, returnMac: bool): seq<Request>
    requires Mutations(operations)
  {
    Queries(QueriedFiles(operations, |operations|)) + Sends(operations) + [Native(CommitCommand(returnMac))]
  }

  lemma {:induction false} QueriedFilesCover(operations: seq<Command>, n: nat)
    requires Mutations(operations) && n <= |operations|
    ensures var files := QueriedFiles(operations, n);
            && (forall i :: 0 <= i < n ==> operations[i].header[0] in files)
            && (forall i :: 0 <= i < |files| ==> files[i] <= MAX_FILE)
            && (forall i, j :: 0 <= i < j < |files| ==> files[i] != files[j])
  {
    if n > 0 {
      QueriedFilesCover(operations, n - 1);
    }
  }

  /** Operation `k` is the first to use its file. */
  predicate FirstUse(operations: seq<Command>, k: nat)
    requires Mutations(operations) && k < |operations|
  {
    forall j :: 0 <= j < k ==> operations[j].header[0] != operations[k].header[0]
  }

  /** The files are queried in the order in which the operations first use them: `k` of them before operation `k`. */
  lemma {:induction false} QueriedInOrderOfUse(operations: seq<Command>, k: nat, n: nat)
    requires Mutations(operations) && k < n <= |operations|
    ensures FirstUse(operations, k) <==> operations[k].header[0] !in QueriedFiles(operations, k)
    ensures FirstUse(operations, k) ==>
              |QueriedFiles(operations, k)| < |QueriedFiles(operations, n)| &&
              QueriedFiles(operations, n)[|QueriedFiles(operations, k)|] == operations[k].header[0]
  {
    QueriedFilesCover(operations, k);
    OnlyUsedFilesAreQueried(operations, k);
    QueriedFilesGrow(operations, k + 1, n);
  }

  lemma {:induction false} OnlyUsedFilesAreQueried(operations: seq<Command>, n: nat)
    requires Mutations(operations) && n <= |operations|
    ensures forall f :: f in QueriedFiles(operations, n) ==> exists k :: 0 <= k < n && operations[k].header[0] == f
  {
    if n > 0 {
      OnlyUsedFilesAreQueried(operations, n - 1);
      forall f | f in QueriedFiles(operations, n) ensures exists k :: 0 <= k < n && operations[k].header[0] == f {
        if f !in QueriedFiles(operations, n - 1) {
          assert operations[n - 1].header[0] == f;
        }
      }
    }
  }

  /** What the commands of a transaction are, byte for byte where they are its own. */
  predicate Worded(heard: Log, operations: seq<Command>, returnMac: bool)
    requires Mutations(operations)
  {
    var q := QueryCount(operations);
    forall i :: 0 <= i < |heard| ==>
      && heard[i].Attempt? && heard[i].request.Native?
      && var c := heard[i].request.command;
         if i < q then c == Command(0xF5, [QueriedFiles(operations, |operations|)[i]], [], Mac, 6, 128)
         else if i < q + |operations| then c == operations[i - q]
         else
           && i == q + |operations|
           && c == if returnMac then Command(0xC7, [1], [], Mac, 12, 12) else Command(0xC7, [], [], Mac, 0, 0)
  }

  lemma FollowsIsWorded(heard: Log, operations: seq<Command>, returnMac: bool)
    requires Mutations(operations) && Follows(heard, Plan(operations, returnMac))
    ensures Worded(heard, operations, returnMac)
  {
  }

  /** Every mutation goes to a file of the type that stages it and in that file's mode. */
  predicate WellAimed(operations: seq<Command>, files: Files)
    requires Mutations(operations)
  {
    forall i :: 0 <= i < |operations| ==>
      var c, s := operations[i], SettingsOf(files, operations[i].header[0]);
      && (c.opcode == 0x3D ==> s.fileType.BackupData?)
      && (c.opcode in {0x0C, 0xDC, 0x1C} ==> s.fileType.Value?)
      && (c.opcode in {0x3B, 0xDB, 0xEB} ==> s.fileType.LinearRecord? || s.fileType.CyclicRecord?)
      && (c.opcode != 0xEB ==> c.requestMode == s.communication)
  }

  lemma {:induction false} QueriedFilesGrow(operations: seq<Command>, m: nat, n: nat)
    requires Mutations(operations) && m <= n <= |operations|
    ensures QueriedFiles(operations, m) <= QueriedFiles(operations, n)
  {
    if m < n {
      QueriedFilesGrow(operations, m, n - 1);
    }
  }

  lemma PlanAt(operations: seq<Command>, returnMac: bool, n: nat)
    requires Mutations(operations) && n < |operations|
    ensures var q := |QueriedFiles(operations, |operations|)|;
            Plan(operations, returnMac)[q + n] == Native(operations[n])
  {
  }

  /** The plan queries the file of operation `n` next when no earlier operation used it. */
  lemma PlanQueries(operations: seq<Command>, returnMac: bool, n: nat)
    requires Mutations(operations) && n < |operations|
    requires operations[n].header[0] !in QueriedFiles(operations, n)
    ensures var k := |QueriedFiles(operations, n)|;
            && |QueriedFiles(operations, n + 1)| == k + 1 <= |QueriedFiles(operations, |operations|)|
            && Plan(operations, returnMac)[k] == Native(SettingsQuery(operations[n].header[0]))
  {
    QueriedFilesGrow(operations, n + 1, |operations|);
  }

  lemma {:induction false} DistinctBelow(s: seq<nat>, bound: nat)
    requires forall i :: 0 <= i < |s| ==> s[i] < bound
    requires forall i, j :: 0 <= i < j < |s| ==> s[i] != s[j]
    ensures |s| <= bound
  {
    if s != [] {
      assert s[0] < bound;
      if m :| 0 <= m < |s| && s[m] == bound - 1 {
        DistinctBelow(s[..m] + s[m + 1..], bound - 1);
      } else {
        DistinctBelow(s, bound - 1);
      }
    }
  }

  /** Theorem: a transaction never sends more than 161 commands. */
  lemma PlanIsBounded(operations: seq<Command>, returnMac: bool)
    requires Mutations(operations) && |operations| <= MAX_OPERATIONS
    ensures |Plan(operations, returnMac)| == |QueriedFiles(operations, |operations|)| + |operations| + 1 <= 161
  {
    QueriedFilesCover(operations, |operations|);
    DistinctBelow(QueriedFiles(operations, |operations|), MAX_FILE + 1);
  }

  /* ------------------------------------------------------------------------------------------
     What was heard of a plan
     ------------------------------------------------------------------------------------------ */

  /** Exactly the first commands of the plan were heard, in order, each once, and nothing else. */
  predicate Follows(heard: Log, plan: seq<Request>) {
    && |heard| <= |plan|
    && forall i :: 0 <= i < |heard| ==> heard[i].Attempt? && heard[i].request == plan[i]
  }

  /* ------------------------------------------------------------------------------------------
     One deadline for the whole transaction
     ------------------------------------------------------------------------------------------ */

  function CeilMilliseconds(nanoseconds: nat): nat {
    (nanoseconds + NANOSECONDS_PER_MILLISECOND - 1) / NANOSECONDS_PER_MILLISECOND
  }

  function Deadline(start: nat, timeout: nat): nat {
    start + timeout * NANOSECONDS_PER_MILLISECOND
  }

  /** Every command was given exactly the time left until the deadline, and none began before the last had ended. */
  predicate Budgeted(heard: Log, start: nat, deadline: nat, now: nat) {
    && (forall i :: 0 <= i < |heard| && heard[i].Attempt? ==>
          && start <= heard[i].at < deadline && heard[i].at <= heard[i].until <= now
          && heard[i].timeout == CeilMilliseconds(deadline - heard[i].at))
    && (forall i, j :: 0 <= i < j < |heard| && heard[i].Attempt? && heard[j].Attempt? ==> heard[i].until <= heard[j].at)
  }

  /** No command is given less than what is left until `end`. */
  predicate Generous(heard: Log, end: nat) {
    forall i :: 0 <= i < |heard| && heard[i].Attempt? ==> heard[i].at + heard[i].timeout * 1_000_000 >= end
  }

  lemma BudgetedIsGenerous(heard: Log, start: nat, timeout: nat, now: nat, end: nat)
    requires Budgeted(heard, start, Deadline(start, timeout), now) && end <= start + timeout * 1_000_000
    ensures Generous(heard, end)
  {
    forall i | 0 <= i < |heard| && heard[i].Attempt? ensures heard[i].at + heard[i].timeout * 1_000_000 >= end {
      CeilIsTight(Deadline(start, timeout) - heard[i].at);
    }
  }

  /** No exchange took longer than the time it was given. */
  predicate Honoured(heard: Log) {
    forall i :: 0 <= i < |heard| && heard[i].Attempt? ==>
      heard[i].until <= heard[i].at + heard[i].timeout * NANOSECONDS_PER_MILLISECOND
  }

  lemma CeilIsTight(nanoseconds: nat)
    ensures var c := CeilMilliseconds(nanoseconds);
            && (c - 1) * NANOSECONDS_PER_MILLISECOND < nanoseconds
            && nanoseconds <= c * NANOSECONDS_PER_MILLISECOND
  {
  }

  /** Theorem: budgets are positive, never above the caller's timeout and never grow. */
  lemma BudgetsFitTheDeadline(heard: Log, start: nat, timeout: nat, now: nat, i: nat, j: nat)
    requires Budgeted(heard, start, Deadline(start, timeout), now)
    requires i <= j < |heard| && heard[i].Attempt? && heard[j].Attempt?
    ensures 0 < heard[j].timeout <= heard[i].timeout <= timeout
    ensures Honoured(heard) ==> heard[j].until < Deadline(start, timeout) + NANOSECONDS_PER_MILLISECOND
  {
    var deadline := Deadline(start, timeout);
    CeilIsTight(deadline - heard[j].at);
    CeilIsTight(deadline - heard[i].at);
    CeilIsTight(timeout * NANOSECONDS_PER_MILLISECOND);
  }

  /* ------------------------------------------------------------------------------------------
     A transaction on its way
     ------------------------------------------------------------------------------------------ */

  /**
   What one transaction set out to do: its plan, what had been heard and logged when it began, the clock
   and the idle time then, and when it must end.
   */
  datatype Goal = Goal(plan: seq<Request>, before: Log, log: Log, start: nat, idle: nat, deadline: nat)

  /**
   What was heard so far follows the plan under the remaining budget; and if every exchange honoured its
   budget, then but for idle time the deadline is not passed by a millisecond.
   */
  predicate OnCourse(goal: Goal, heard: Log, now: nat, idle: nat) {
    && goal.before <= heard
    && Follows(heard[|goal.before|..], goal.plan)
    && Budgeted(heard[|goal.before|..], goal.start, goal.deadline, now)
    && goal.start <= now && goal.idle <= idle
    && (Honoured(heard[|goal.before|..]) ==> now < goal.deadline + NANOSECONDS_PER_MILLISECOND + idle - goal.idle)
  }

  /** Time that passes outside the exchanges is idle time. */
  lemma IdleStaysOnCourse(goal: Goal, heard: Log, now: nat, idle: nat, elapsed: nat)
    requires OnCourse(goal, heard, now, idle)
    ensures OnCourse(goal, heard, now + elapsed, idle + elapsed)
  {
  }

  /** The next command of the plan, given the time that is left. */
  lemma NextStaysOnCourse(goal: Goal, heard: Log, now: nat, idle: nat, e: Entry)
    requires OnCourse(goal, heard, now, idle) && now < goal.deadline
    requires |heard| - |goal.before| < |goal.plan| && e.Attempt? && e.request == goal.plan[|heard| - |goal.before|]
    requires e.at == now <= e.until && e.timeout == CeilMilliseconds(goal.deadline - now)
    ensures OnCourse(goal, heard + [e], e.until, idle)
  {
    var before, after := heard[|goal.before|..], (heard + [e])[|goal.before|..];
    assert after == before + [e];
    CeilIsTight(goal.deadline - now);
    if Honoured(after) {
      assert after[|before|] == e;
    }
  }
}
