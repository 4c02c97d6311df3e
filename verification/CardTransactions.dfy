/** The managed transaction executor: validate, query and cache settings, stage, commit once. */
module CardTransactions {
  import opened Results
  import opened CardTrace
  import opened Reader
  import opened ManagedCard
  import opened CardManagement
  import opened TransactionPlan

  /** A prefix of the plan no longer than `most` has been heard, each command under the remaining budget. */
  ghost predicate Stopped(card: Card, goal: Goal, most: nat)
    reads card, card.link
  {
    && card.Valid() && goal.log <= card.log
    && OnCourse(goal, card.link.heard, card.link.now, card.link.idle)
    && |card.link.heard| <= |goal.before| + most
  }

  /** Exactly the first `k` commands of the plan have been heard. */
  ghost predicate Underway(card: Card, goal: Goal, k: nat)
    reads card, card.link
  {
    Stopped(card, goal, k) && |card.link.heard| == |goal.before| + k
  }

  /**
   Nothing stands in the way of the rest of the plan: an obliging card in the captured generation,
   time left, every gate open, and counter values enough for an EV2 session.
   */
  ghost predicate Smooth(card: Card, goal: Goal, k: nat)
    reads card, card.link
  {
    && card.link.Obliging(card.link.tick)
    && card.link.generation == card.generation && card.link.now < goal.deadline
    && OpenAhead(card.Now().life, goal.plan, k)
  }

  predicate OpenAhead(life: Life, plan: seq<Request>, k: nat) {
    && life.Live? && k <= |plan|
    && (forall i :: k <= i < |plan| ==> plan[i].Native? && Gates(life, plan[i].command))
    && (life.auth.Ev2? ==> life.auth.counter + |plan| - k <= MAX_COUNTER)
  }

  lemma OpenMeansNative(life: Life, plan: seq<Request>)
    requires OpenAhead(life, plan, 0) && plan != []
    ensures life.Live? && !life.auth.IsoAes?
  {
    assert Gates(life, plan[0].command);
  }

  /** Gates do not depend on the counter, so sending a command closes none of them. */
  lemma OpenAheadStep(life: Life, plan: seq<Request>, k: nat)
    requires OpenAhead(life, plan, k) && k < |plan|
    ensures OpenAhead(Live(Charged(life.auth, plan[k]), life.pending, life.selected), plan, k + 1)
  {
    var next := Live(Charged(life.auth, plan[k]), life.pending, life.selected);
    forall i | k + 1 <= i < |plan| ensures Gates(next, plan[i].command) {
      assert Gates(life, plan[i].command);
    }
  }

  /** The time left until the deadline, rounded up to milliseconds, unless cancelled or expired. */
  method RemainingOptions(link: Reader, deadline: nat) returns (r: Result<nat>)
    modifies link`tick, link`now, link`idle
    ensures link.now == old(link.now) + link.script(old(link.tick)).elapsed && link.tick == old(link.tick) + 1
    ensures link.idle == old(link.idle) + link.script(old(link.tick)).elapsed
    ensures r.Ok? <==> !link.script(old(link.tick)).stop && link.now < deadline
    ensures r.Ok? ==> r.value == CeilMilliseconds(deadline - link.now)
    ensures r.Err? ==> r.error == Error(if link.script(old(link.tick)).stop then Cancelled else Timeout)
  {
    var now, stop := link.ReadClock();
    if stop {
      return Err(Error(Cancelled));
    }
    if now >= deadline {
      return Err(Error(Timeout));
    }
    r := Ok(CeilMilliseconds(deadline - now));
  }

  /** The payload is what the card answered in the last exchange, which a look has followed. */
  ghost predicate LastAnswer(link: Reader, payload: Payload)
    reads link
  {
    && link.tick >= 2 && link.script(link.tick - 2).answer.Answered?
    && SamePayload(payload, link.script(link.tick - 2).answer.payload)
  }

  /** Send the next command of the plan under the given budget. */
  method SendNext(card: Card, command: Command, ghost goal: Goal, ghost k: nat, budget: nat)
    returns (r: Result<Payload>)
    requires Underway(card, goal, k) && card.link.now < goal.deadline
    requires budget == CeilMilliseconds(goal.deadline - card.link.now)
    requires k < |goal.plan| && goal.plan[k] == Native(command) && !command.invalidatesSession
    modifies card, card.link
    ensures card.generation == old(card.generation)
    ensures r.Ok? ==> Underway(card, goal, k + 1) && card.usable
    ensures r.Ok? ==> card.link.generation == card.generation
    ensures r.Ok? ==> card.link.picc == Effect(card.link.files, old(card.link.picc), Native(command))
    ensures r.Ok? && QueriesSettings(Native(command)) ==>
              r.value.settings == SettingsOf(card.link.files, command.header[0])
    ensures r.Err? ==> Stopped(card, goal, k + 1)
    ensures r.Uncertain() ==> !card.usable
    ensures r.Err? ==> Explains(card.link.files, old(card.link.picc), Native(command), r.error.outcome, card.link.picc)
    ensures old(Smooth(card, goal, k)) ==> r.Ok? && Smooth(card, goal, k + 1)
    ensures r.Ok? ==> LastAnswer(card.link, r.value)
  {
    ghost var life, clock, smooth := card.Now().life, card.link.now, Smooth(card, goal, k);
    ghost var heard, idle := card.link.heard, card.link.idle;
    ghost var lease := card.generation + card.link.script(card.link.tick + 1).bump;
    r := ExecuteLocked(card, command, budget);
    if smooth {
      OpenAheadStep(life, goal.plan, k);
    }
    if card.link.heard != heard {
      NextStaysOnCourse(goal, heard, clock, idle, Handed(card, command, lease, clock, budget));
    }
  }

  /** Send the next command of the plan under the remaining budget. */
  method RunNext(card: Card, command: Command, ghost goal: Goal, deadline: nat, ghost k: nat)
    returns (r: Result<Payload>)
    requires Underway(card, goal, k) && deadline == goal.deadline
    requires k < |goal.plan| && goal.plan[k] == Native(command) && !command.invalidatesSession
    modifies card, card.link
    ensures card.generation == old(card.generation)
    ensures r.Ok? ==> Underway(card, goal, k + 1) && card.usable
    ensures r.Ok? ==> card.link.generation == card.generation
    ensures r.Ok? ==> card.link.picc == Effect(card.link.files, old(card.link.picc), Native(command))
    ensures r.Ok? && QueriesSettings(Native(command)) ==>
              r.value.settings == SettingsOf(card.link.files, command.header[0])
    ensures r.Err? ==> Stopped(card, goal, k + 1)
    ensures r.Uncertain() ==> !card.usable
    ensures r.Err? ==> Explains(card.link.files, old(card.link.picc), Native(command), r.error.outcome, card.link.picc)
    ensures old(Smooth(card, goal, k)) ==> r.Ok? && Smooth(card, goal, k + 1)
    ensures r.Ok? ==> LastAnswer(card.link, r.value)
  {
    IdleStaysOnCourse(goal, card.link.heard, card.link.now, card.link.idle, card.link.script(card.link.tick).elapsed);
    var budget := RemainingOptions(card.link, deadline);
    if budget.Err? {
      return Err(budget.error);
    }
    r := SendNext(card, command, goal, k, budget.value);
  }

  /* ------------------------------------------------------------------------------------------
     Settings
     ------------------------------------------------------------------------------------------ */

  /** The slots hold the true settings of exactly the files queried so far. */
  ghost predicate Caches(settings: array<Option<FileSettings>>, files: Files, queried: seq<nat>)
    reads settings
  {
    && settings.Length == MAX_FILE + 1
    && (forall f :: 0 <= f <= MAX_FILE ==> (settings[f].Some? <==> f in queried))
    && (forall f :: 0 <= f <= MAX_FILE && settings[f].Some? ==> settings[f].value == SettingsOf(files, f))
  }

  predicate UnchangedOrForgotten(p: Picc, q: Picc) {
    q == p || q == p.Forget()
  }

  /** The one query for the file of operation `n`, which no earlier operation used. */
  method QuerySettings(card: Card, operations: seq<Command>, ghost returnMac: bool, n: nat, ghost goal: Goal,
                       deadline: nat)
    returns (r: Result<FileSettings>)
    requires Mutations(operations) && n < |operations| && goal.plan == Plan(operations, returnMac)
    requires deadline == goal.deadline
    requires Underway(card, goal, |QueriedFiles(operations, n)|)
    requires operations[n].header[0] !in QueriedFiles(operations, n)
    modifies card, card.link
    ensures card.generation == old(card.generation)
    ensures r.Ok? ==> r.value == SettingsOf(card.link.files, operations[n].header[0])
    ensures r.Ok? ==> Underway(card, goal, |QueriedFiles(operations, n + 1)|)
    ensures r.Ok? ==> card.link.picc == old(card.link.picc) && card.link.generation == card.generation && card.usable
    ensures r.Err? ==> Stopped(card, goal, QueryCount(operations))
    ensures r.Err? ==> UnchangedOrForgotten(old(card.link.picc), card.link.picc)
    ensures r.Uncertain() ==> !card.usable
    ensures old(Smooth(card, goal, |QueriedFiles(operations, n)|)) ==>
              r.Ok? && Smooth(card, goal, |QueriedFiles(operations, n + 1)|)
  {
    PlanQueries(operations, returnMac, n);
    var answer := RunNext(card, SettingsQuery(operations[n].header[0]), goal, deadline, |QueriedFiles(operations, n)|);
    r := if answer.Ok? then Ok(answer.value.settings) else Err(answer.error);
  }

  /** The settings of operation `n`'s file: from the cache, or by the one query that fills the slot. */
  method LookUpSettings(card: Card, settings: array<Option<FileSettings>>, operations: seq<Command>,
                        ghost returnMac: bool, n: nat,
                        ghost goal: Goal, deadline: nat)
    returns (r: Result<FileSettings>)
    requires Mutations(operations) && n < |operations| && goal.plan == Plan(operations, returnMac)
    requires deadline == goal.deadline
    requires Underway(card, goal, |QueriedFiles(operations, n)|)
    requires Caches(settings, card.link.files, QueriedFiles(operations, n))
    requires n > 0 ==> card.link.generation == card.generation && card.usable
    modifies card, card.link, settings
    ensures card.generation == old(card.generation)
    ensures r.Ok? ==> r.value == SettingsOf(card.link.files, operations[n].header[0])
    ensures r.Ok? ==> Underway(card, goal, |QueriedFiles(operations, n + 1)|)
    ensures r.Ok? ==> Caches(settings, card.link.files, QueriedFiles(operations, n + 1))
    ensures r.Ok? ==> card.link.picc == old(card.link.picc) && card.link.generation == card.generation && card.usable
    ensures r.Err? ==> Stopped(card, goal, QueryCount(operations))
    ensures r.Err? ==> UnchangedOrForgotten(old(card.link.picc), card.link.picc)
    ensures r.Uncertain() ==> !card.usable
    ensures old(Smooth(card, goal, |QueriedFiles(operations, n)|)) ==>
              r.Ok? && Smooth(card, goal, |QueriedFiles(operations, n + 1)|)
    ensures r.Err? ==> settings[operations[n].header[0]].None?
  {
    var file := operations[n].header[0];
    if settings[file].None? {
      var answer := QuerySettings(card, operations, returnMac, n, goal, deadline);
      if answer.Err? {
        return answer;
      }
      settings[file] := Some(answer.value);
    }
    r := Ok(settings[file].value);
  }

  /** Operation `n` is sent to a file of a transactional type in that file's communication mode. */
  method CheckOne(card: Card, settings: array<Option<FileSettings>>, operations: seq<Command>, ghost returnMac: bool,
                  n: nat,
                  ghost goal: Goal, deadline: nat)
    returns (r: Result<()>)
    requires Mutations(operations) && n < |operations| && goal.plan == Plan(operations, returnMac)
    requires deadline == goal.deadline
    requires Underway(card, goal, |QueriedFiles(operations, n)|)
    requires Caches(settings, card.link.files, QueriedFiles(operations, n))
    requires n > 0 ==> card.link.generation == card.generation && card.usable
    modifies card, card.link, settings
    ensures card.generation == old(card.generation)
    ensures r.Ok? ==> Suits(operations[n], SettingsOf(card.link.files, operations[n].header[0]))
    ensures r.Ok? ==> Underway(card, goal, |QueriedFiles(operations, n + 1)|)
    ensures r.Ok? ==> Caches(settings, card.link.files, QueriedFiles(operations, n + 1))
    ensures r.Ok? ==> card.link.picc == old(card.link.picc) && card.link.generation == card.generation && card.usable
    ensures r.Err? ==> Stopped(card, goal, QueryCount(operations))
    ensures r.Err? ==> UnchangedOrForgotten(old(card.link.picc), card.link.picc)
    ensures r.Uncertain() ==> !card.usable
    ensures old(Smooth(card, goal, |QueriedFiles(operations, n)|)) &&
            Suits(operations[n], SettingsOf(card.link.files, operations[n].header[0])) ==>
              r.Ok? && Smooth(card, goal, |QueriedFiles(operations, n + 1)|)
    // With the settings known, a refusal is the check's own, and spares the card.
    ensures r.Err? && settings[operations[n].header[0]].Some? ==>
              && r.error == Error(InvalidArgument) && card.usable
              && !Suits(operations[n], SettingsOf(card.link.files, operations[n].header[0]))
  {
    var command := operations[n];
    var file := LookUpSettings(card, settings, operations, returnMac, n, goal, deadline);
    if file.Err? {
      return Err(file.error);
    }
    QueriedFilesGrow(operations, n + 1, |operations|);
    if !Stages(command.opcode, file.value.fileType) {
      return Err(Error(InvalidArgument));
    }
    if command.opcode != 0xEB && command.requestMode != file.value.communication {
      return Err(Error(InvalidArgument));
    }
    r := Ok(());
  }

  predicate AllSuit(operations: seq<Command>, n: nat, files: Files)
    requires Mutations(operations) && n <= |operations|
  {
    forall i :: 0 <= i < n ==> Suits(operations[i], SettingsOf(files, operations[i].header[0]))
  }

  /** Query each file once, cache its settings in 32 slots and check every operation against them. */
  method CheckSettings(card: Card, operations: seq<Command>, ghost returnMac: bool, ghost goal: Goal, deadline: nat)
    returns (r: Result<()>)
    requires Mutations(operations) && operations != [] && goal.plan == Plan(operations, returnMac)
    requires deadline == goal.deadline
    requires Underway(card, goal, 0)
    modifies card, card.link
    ensures card.generation == old(card.generation)
    ensures r.Ok? ==> Underway(card, goal, QueryCount(operations))
    ensures r.Ok? ==> AllSuit(operations, |operations|, card.link.files)
    ensures r.Ok? ==> card.link.picc == old(card.link.picc) && card.link.generation == card.generation && card.usable
    ensures r.Err? ==> Stopped(card, goal, QueryCount(operations))
    ensures r.Err? ==> UnchangedOrForgotten(old(card.link.picc), card.link.picc)
    ensures r.Uncertain() ==> !card.usable
    ensures old(Smooth(card, goal, 0)) && AllSuit(operations, |operations|, card.link.files) ==>
              r.Ok? && Smooth(card, goal, QueryCount(operations))
  {
    var settings := new Option<FileSettings>[MAX_FILE + 1](_ => None);
    for n := 0 to |operations|
      invariant card.generation == old(card.generation)
      invariant Underway(card, goal, |QueriedFiles(operations, n)|)
      invariant card.link.picc == old(card.link.picc)
      invariant n > 0 ==> card.link.generation == card.generation && card.usable
      invariant Caches(settings, card.link.files, QueriedFiles(operations, n))
      invariant AllSuit(operations, n, card.link.files)
      invariant old(Smooth(card, goal, 0)) && AllSuit(operations, |operations|, card.link.files) ==>
                  Smooth(card, goal, |QueriedFiles(operations, n)|)
    {
      r := CheckOne(card, settings, operations, returnMac, n, goal, deadline);
      if r.Err? {
        return;
      }
    }
    r := Ok(());
  }

  /* ------------------------------------------------------------------------------------------
     Staging and commit
     ------------------------------------------------------------------------------------------ */

  /** Once something is staged, or might be, the outcome is uncertain and the card is dead. */
  method AbandonStaging(card: Card, error: Error, staged: bool, ghost goal: Goal, ghost most: nat) returns (r: Error)
    requires Stopped(card, goal, most) && card.Valid() && (error.outcome.Unknown? ==> !card.usable)
    modifies card
    ensures Stopped(card, goal, most) && card.Valid() && card.generation == old(card.generation)
    ensures card.usable <==> old(card.usable) && !staged && !error.outcome.Unknown?
    ensures r == Error(error.code, if staged then Unknown else error.outcome)
  {
    var outcome := error.outcome;
    if staged || error.outcome.Unknown? {
      outcome := Unknown;
      card.InvalidateLocked();
    }
    r := Error(error.code, outcome);
  }

  /** The next mutation: accepted, it is the newest staged one; refused, nothing was committed. */
  method StageOne(card: Card, operations: seq<Command>, ghost returnMac: bool, n: nat, ghost goal: Goal, deadline: nat)
    returns (r: Result<()>)
    requires Mutations(operations) && n < |operations|
    requires goal.plan == Plan(operations, returnMac) && deadline == goal.deadline
    requires AllSuit(operations, |operations|, card.link.files)
    requires Underway(card, goal, QueryCount(operations) + n) && card.link.generation == card.generation
    modifies card, card.link
    ensures card.generation == old(card.generation)
    ensures r.Ok? ==> Underway(card, goal, QueryCount(operations) + n + 1) && card.link.generation == card.generation
    ensures r.Ok? ==> card.link.picc == old(card.link.picc).(staged := old(card.link.picc.staged) + [operations[n]])
    ensures r.Err? ==> Stopped(card, goal, QueryCount(operations) + n + 1)
    ensures r.Err? ==> card.link.picc.committed == old(card.link.picc.committed)
    ensures r.Err? && (r.error.outcome.NotSent? || r.error.outcome.Rejected?) ==>
              UnchangedOrForgotten(old(card.link.picc), card.link.picc)
    ensures r.Uncertain() ==> !card.usable
    ensures old(Smooth(card, goal, QueryCount(operations) + n)) ==>
              r.Ok? && Smooth(card, goal, QueryCount(operations) + n + 1)
  {
    PlanAt(operations, returnMac, n);
    var result := RunNext(card, operations[n], goal, deadline, QueryCount(operations) + n);
    if result.Err? {
      return Err(result.error);
    }
    r := Ok(());
  }

  /** The next mutation, with what its failure means once others are staged. */
  method StageNext(card: Card, operations: seq<Command>, ghost returnMac: bool, n: nat, staged: bool, ghost goal: Goal,
                   deadline: nat)
    returns (r: Result<()>)
    requires Mutations(operations) && n < |operations|
    requires goal.plan == Plan(operations, returnMac) && deadline == goal.deadline
    requires AllSuit(operations, |operations|, card.link.files)
    requires Underway(card, goal, QueryCount(operations) + n) && card.link.generation == card.generation
    modifies card, card.link
    ensures card.generation == old(card.generation)
    ensures r.Ok? ==> Underway(card, goal, QueryCount(operations) + n + 1) && card.link.generation == card.generation
    ensures r.Ok? ==> card.link.picc == old(card.link.picc).(staged := old(card.link.picc.staged) + [operations[n]])
    ensures r.Err? ==> Stopped(card, goal, QueryCount(operations) + n + 1) && (staged ==> r.Uncertain())
    ensures r.Err? ==> card.link.picc.committed == old(card.link.picc.committed)
    ensures r.Err? && (r.error.outcome.NotSent? || r.error.outcome.Rejected?) ==>
              UnchangedOrForgotten(old(card.link.picc), card.link.picc)
    ensures r.Uncertain() ==> !card.usable
    ensures old(Smooth(card, goal, QueryCount(operations) + n)) ==>
              r.Ok? && Smooth(card, goal, QueryCount(operations) + n + 1)
  {
    r := StageOne(card, operations, returnMac, n, goal, deadline);
    if r.Err? {
      var error := AbandonStaging(card, r.error, staged, goal, QueryCount(operations) + n + 1);
      r := Err(error);
    }
  }

  /** The card with the first `n` operations staged on top of what was staged before. */
  function WithStaged(p: Picc, operations: seq<Command>, n: nat): Picc
    requires n <= |operations|
  {
    p.(staged := p.staged + operations[..n])
  }

  lemma WithStagedNext(p: Picc, operations: seq<Command>, n: nat)
    requires n < |operations|
    ensures WithStaged(p, operations, n + 1) ==
            WithStaged(p, operations, n).(staged := WithStaged(p, operations, n).staged + [operations[n]])
  {
    assert operations[..n + 1] == operations[..n] + [operations[n]];
  }

  lemma WithStagedEnds(p: Picc, operations: seq<Command>)
    ensures WithStaged(p, operations, 0) == p
    ensures WithStaged(p, operations, |operations|) == p.(staged := p.staged + operations)
  {
    assert p.staged + operations[..0] == p.staged && operations[..|operations|] == operations;
  }

  /** Every mutation goes out in order; the card has staged exactly those that were accepted. */
  method StageAll(card: Card, operations: seq<Command>, ghost returnMac: bool, ghost goal: Goal, deadline: nat)
    returns (r: Result<()>)
    requires Mutations(operations) && goal.plan == Plan(operations, returnMac) && deadline == goal.deadline
    requires AllSuit(operations, |operations|, card.link.files)
    requires Underway(card, goal, QueryCount(operations)) && card.link.generation == card.generation
    modifies card, card.link
    ensures card.Valid() && card.generation == old(card.generation)
    ensures r.Ok? ==>
              Underway(card, goal, QueryCount(operations) + |operations|) && card.link.generation == card.generation
    ensures r.Ok? ==> card.link.picc == old(card.link.picc).(staged := old(card.link.picc.staged) + operations)
    ensures r.Err? ==> card.link.picc.committed == old(card.link.picc.committed)
    // A definite error means at most the first mutation was tried, and it did nothing.
    ensures r.Err? ==> Stopped(card, goal, QueryCount(operations) + (if r.Uncertain() then |operations| else 1))
    ensures r.Uncertain() ==> !card.usable
    ensures r.Err? && (r.error.outcome.NotSent? || r.error.outcome.Rejected?) ==>
              UnchangedOrForgotten(old(card.link.picc), card.link.picc)
    ensures old(Smooth(card, goal, QueryCount(operations))) ==>
              r.Ok? && Smooth(card, goal, QueryCount(operations) + |operations|)
  {
    WithStagedEnds(card.link.picc, operations);
    var staged := false;
    for n := 0 to |operations|
      invariant card.generation == old(card.generation)
      invariant Underway(card, goal, QueryCount(operations) + n) && card.link.generation == card.generation
      invariant card.link.picc == WithStaged(old(card.link.picc), operations, n)
      invariant staged <==> n > 0
      invariant old(Smooth(card, goal, QueryCount(operations))) ==> Smooth(card, goal, QueryCount(operations) + n)
    {
      r := StageNext(card, operations, returnMac, n, staged, goal, deadline);
      if r.Err? {
        return;
      }
      WithStagedNext(old(card.link.picc), operations, n);
      staged := true;
    }
    r := Ok(());
  }

  /** Commit once; from here on only success is certain. */
  method CommitOnce(card: Card, operations: seq<Command>, returnMac: bool, ghost goal: Goal, deadline: nat)
    returns (r: Result<Payload>)
    requires Mutations(operations) && goal.plan == Plan(operations, returnMac) && deadline == goal.deadline
    requires Underway(card, goal, |goal.plan| - 1) && card.link.generation == card.generation
    modifies card, card.link
    ensures card.Valid() && card.generation == old(card.generation)
    ensures r.Ok? ==> card.link.picc == Picc(old(card.link.picc.committed) + old(card.link.picc.staged), [])
    ensures r.Ok? ==> Underway(card, goal, |goal.plan|) && card.usable && card.link.generation == card.generation
    ensures r.Err? ==> r.Uncertain() && !card.usable && Stopped(card, goal, |goal.plan|)
    ensures r.Err? ==> card.link.picc.committed == old(card.link.picc.committed) ||
                       card.link.picc.committed == old(card.link.picc.committed) + old(card.link.picc.staged)
    ensures old(Smooth(card, goal, |goal.plan| - 1)) ==> r.Ok?
    ensures r.Ok? ==> LastAnswer(card.link, r.value)
  {
    r := RunNext(card, CommitCommand(returnMac), goal, deadline, |goal.plan| - 1);
    if r.Err? {
      var error := AbandonStaging(card, r.error, true, goal, |goal.plan|);
      r := Err(error);
    }
  }

  /**
   Success commits everything; an error leaves the committed state fully old or fully new, fully old
   unless it is uncertain, and nothing staged of ours when it proves that nothing took effect.
   */
  predicate Atomic(p: Picc, q: Picc, operations: seq<Command>, r: Result<Payload>) {
    match r
    case Ok(_) => q == Picc(p.committed + p.staged + operations, [])
    case Err(error) =>
      && (q.committed == p.committed || (error.outcome.Unknown? && q.committed == p.committed + p.staged + operations))
      && (error.outcome.NotSent? || error.outcome.Rejected? ==> UnchangedOrForgotten(p, q))
  }

  /** Settings, mutations, commit: atomic on the card and never off the plan. */
  method RunPlan(card: Card, operations: seq<Command>, returnMac: bool, ghost goal: Goal, deadline: nat)
    returns (r: Result<Payload>)
    requires Mutations(operations) && operations != [] && goal.plan == Plan(operations, returnMac)
    requires deadline == goal.deadline
    requires Underway(card, goal, 0)
    modifies card, card.link
    ensures card.generation == old(card.generation)
    ensures Atomic(old(card.link.picc), card.link.picc, operations, r)
    ensures r.Ok? ==> Underway(card, goal, |goal.plan|) && card.usable && card.link.generation == card.generation
    ensures r.Uncertain() ==> !card.usable
    ensures Stopped(card, goal, if r.Ok? || r.Uncertain() then |goal.plan| else QueryCount(operations) + 1)
    ensures |card.link.heard| > |goal.before| + QueryCount(operations) ==>
              AllSuit(operations, |operations|, card.link.files)
    ensures old(Smooth(card, goal, 0)) && AllSuit(operations, |operations|, card.link.files) ==> r.Ok?
    ensures r.Ok? ==> LastAnswer(card.link, r.value)
  {
    var checked := CheckSettings(card, operations, returnMac, goal, deadline);
    if checked.Err? {
      return Err(checked.error);
    }
    var staging := StageAll(card, operations, returnMac, goal, deadline);
    if staging.Err? {
      return Err(staging.error);
    }
    r := CommitOnce(card, operations, returnMac, goal, deadline);
    ghost var p := old(card.link.picc);
    assert p.committed + (p.staged + operations) == p.committed + p.staged + operations;
  }

  lemma WellAimedIsAllSuit(operations: seq<Command>, files: Files)
    requires Mutations(operations)
    ensures WellAimed(operations, files) <==> AllSuit(operations, |operations|, files)
  {
    if WellAimed(operations, files) {
      forall i | 0 <= i < |operations| ensures Suits(operations[i], SettingsOf(files, operations[i].header[0])) {
        assert IsTransactionalMutation(operations[i]);
      }
    }
    if AllSuit(operations, |operations|, files) {
      forall i | 0 <= i < |operations|
        ensures var c, s := operations[i], SettingsOf(files, operations[i].header[0]);
                && (c.opcode == 0x3D ==> s.fileType.BackupData?)
                && (c.opcode in {0x0C, 0xDC, 0x1C} ==> s.fileType.Value?)
                && (c.opcode in {0x3B, 0xDB, 0xEB} ==> s.fileType.LinearRecord? || s.fileType.CyclicRecord?)
                && (c.opcode != 0xEB ==> c.requestMode == s.communication)
      {
        assert Suits(operations[i], SettingsOf(files, operations[i].header[0]));
      }
    }
  }

  /** What was heard of a transaction of these mutations that ended in `r`. */
  predicate Told(heard: Log, operations: seq<Command>, returnMac: bool, r: Result<Payload>)
    requires Mutations(operations)
  {
    && Follows(heard, Plan(operations, returnMac))
    && (r.Ok? ==> |heard| == |Plan(operations, returnMac)|)
    && (r.Err? && !r.Uncertain() ==> |heard| <= QueryCount(operations) + 1)
  }

  /**
   What the reader hears of a transaction that ended in `r`: a prefix of the plan, all of it on success and at most
   161 commands, worded as they must be, and no mutation before every one is checked.
   */
  predicate Wired(heard: Log, operations: seq<Command>, returnMac: bool, files: Files, r: Result<Payload>)
    requires Mutations(operations)
  {
    && Told(heard, operations, returnMac, r) && |heard| <= 161
    && Worded(heard, operations, returnMac)
    && (|heard| > QueryCount(operations) ==> WellAimed(operations, files))
  }

  /** The clock shows no more than a millisecond after the deadline, idle time aside, if all budgets were honoured. */
  ghost predicate Punctual(link: Reader, heard: Log, deadline: nat, idle: nat)
    reads link
  {
    Honoured(heard) ==> link.now < deadline + NANOSECONDS_PER_MILLISECOND + link.idle - idle
  }

  /** The checks made before any command, and the clock read from which the deadline counts. */
  method AdmitTransaction(card: Card, operations: seq<Command>, timeout: int) returns (refusal: Option<Error>)
    requires card.Valid()
    modifies card.link`tick, card.link`now, card.link`idle
    ensures refusal.None? <==> && card.usable && card.isoSession.None? && timeout > 0
                               && 1 <= |operations| <= 128 && Mutations(operations)
    ensures refusal.Some? ==>
              refusal.value == Error(if !card.usable || card.isoSession.Some? then SessionInvalid else InvalidArgument)
    ensures card.link.now - old(card.link.now) == card.link.idle - old(card.link.idle) >= 0
    ensures card.link.tick >= old(card.link.tick)
  {
    if !card.usable || card.isoSession.Some? {
      return Some(Error(SessionInvalid));
    }
    if operations == [] || |operations| > MAX_OPERATIONS || timeout <= 0 {
      return Some(Error(InvalidArgument));
    }
    var _, _ := card.link.ReadClock();
    if exists i :: 0 <= i < |operations| && !IsTransactionalMutation(operations[i]) {
      return Some(Error(InvalidArgument));
    }
    return None;
  }

  /** A transaction of checked mutations, with its deadline counted from now. */
  method RunMutations(card: Card, operations: seq<Command>, returnMac: bool, timeout: nat) returns (r: Result<Payload>)
    requires card.Valid() && card.usable && Mutations(operations) && 1 <= |operations| <= MAX_OPERATIONS && timeout > 0
    modifies card, card.link
    ensures card.Valid() && card.generation == old(card.generation) && old(card.log) <= card.log
    ensures Atomic(old(card.link.picc), card.link.picc, operations, r)
    ensures r.Uncertain() ==> !card.usable
    ensures r.Ok? ==> card.usable && card.link.generation == card.generation
    ensures old(card.link.heard) <= card.link.heard
    ensures Wired(card.link.heard[|old(card.link.heard)|..], operations, returnMac, card.link.files, r)
    ensures Budgeted(card.link.heard[|old(card.link.heard)|..], old(card.link.now),
                     Deadline(old(card.link.now), timeout), card.link.now)
    ensures Punctual(card.link, card.link.heard[|old(card.link.heard)|..], Deadline(old(card.link.now), timeout),
                     old(card.link.idle)) && card.link.idle >= old(card.link.idle)
    ensures (&& WellAimed(operations, card.link.files)
             && OpenAhead(old(card.Now().life), Plan(operations, returnMac), 0)
             && card.link.Obliging(old(card.link.tick)) && old(card.link.generation) == card.generation) ==> r.Ok?
    ensures r.Ok? ==> LastAnswer(card.link, r.value)
  {
    var deadline := Deadline(card.link.now, timeout);
    ghost var heard := card.link.heard;
    ghost var goal := Goal(Plan(operations, returnMac), heard, card.log, card.link.now, card.link.idle, deadline);
    assert heard[|heard|..] == [];
    PlanIsBounded(operations, returnMac);
    WellAimedIsAllSuit(operations, card.link.files);
    r := RunPlan(card, operations, returnMac, goal, deadline);
    FollowsIsWorded(card.link.heard[|heard|..], operations, returnMac);
  }

  /**
   Execute a transaction: all or nothing on the card, one prefix of one plan on the wire.
   Whatever the card had staged before the transaction is committed together with it.
   */
  method ExecuteTransaction(card: Card, operations: seq<Command>, returnMac: bool, timeout: int)
    returns (r: Result<Payload>)
    requires card.Valid()
    modifies card, card.link
    ensures card.Valid() && card.generation == old(card.generation) && old(card.log) <= card.log
    ensures Atomic(old(card.link.picc), card.link.picc, operations, r)
    ensures r.Uncertain() ==> !card.usable
    ensures r.Ok? ==> card.usable && card.link.generation == card.generation
    // The receipt is what the card answered to the commit, the last thing it heard.
    ensures r.Ok? ==> LastAnswer(card.link, r.value)
    ensures old(card.link.heard) <= card.link.heard
    ensures |card.link.heard| > |old(card.link.heard)| || r.Ok? ==>
              Mutations(operations) && 1 <= |operations| <= 128 && timeout > 0
    ensures Mutations(operations) ==>
              Wired(card.link.heard[|old(card.link.heard)|..], operations, returnMac, card.link.files, r)
    // One deadline: budgets follow it, and with budgets honoured only idle time can delay the end by a millisecond.
    ensures timeout > 0 ==>
              exists start :: start >= old(card.link.now) &&
                Budgeted(card.link.heard[|old(card.link.heard)|..], start, Deadline(start, timeout), card.link.now)
    ensures timeout > 0 ==>
              && Generous(card.link.heard[|old(card.link.heard)|..], old(card.link.now) + timeout * 1_000_000)
              && Punctual(card.link, card.link.heard[|old(card.link.heard)|..],
                          old(card.link.now) + timeout * 1_000_000, old(card.link.idle))
    // Progress: with nothing in the way, it goes through.
    ensures (&& Mutations(operations) && 1 <= |operations| <= 128 && timeout > 0
             && WellAimed(operations, card.link.files)
             && OpenAhead(old(card.Now().life), Plan(operations, returnMac), 0)
             && card.link.Obliging(old(card.link.tick)) && old(card.link.generation) == card.generation) ==> r.Ok?
    // A refusal leaves everything as it was.
    ensures !(&& old(card.usable) && old(card.isoSession).None? && timeout > 0
              && 1 <= |operations| <= 128 && Mutations(operations)) ==>
              && r == Err(Error(if !old(card.usable) || old(card.isoSession).Some? then SessionInvalid
                                else InvalidArgument))
              && card.log == old(card.log) && card.Snap() == old(card.Snap())
              && card.link.heard == old(card.link.heard)
  {
    ghost var heard := card.link.heard;
    assert heard[|heard|..] == [];
    if Mutations(operations) && OpenAhead(card.Now().life, Plan(operations, returnMac), 0) {
      OpenMeansNative(card.Now().life, Plan(operations, returnMac));
    }
    var refusal := AdmitTransaction(card, operations, timeout);
    if refusal.Some? {
      assert timeout > 0 ==> Budgeted([], card.link.now, Deadline(card.link.now, timeout), card.link.now);
      return Err(refusal.value);
    }
    ghost var start := card.link.now;
    r := RunMutations(card, operations, returnMac, timeout);
    BudgetedIsGenerous(card.link.heard[|heard|..], start, timeout, card.link.now,
                       old(card.link.now) + timeout * 1_000_000);
  }
}
