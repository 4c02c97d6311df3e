/** Every run of a managed card: any sequence of calls against any card behaviour. */
module CardRuns {
  import opened Results
  import opened CardTrace
  import opened Reader
  import opened ManagedCard
  import CardManagement
  import CardDiscovery
  import opened CardAuthentication
  import opened TransactionPlan
  import CardIso7816
  import CardTransactions

  datatype Call =
    | Execute(command: Command)
    | SelectApplication(application: nat)
    | GetVersion
    | FreeMemory
    | FileIds
    | DfNames
    | AuthenticateNative(family: Family, source: KeySource, capabilities: nat)
    | AuthenticateIsoAes(reference: nat, isoSource: KeySource)
    | IsoCall(iso: IsoCommand)
    | ExecuteTransaction(operations: seq<Command>, returnMac: bool)
    | ResetAuthentication
    | Reset

  function FailureOf<T>(r: Result<T>): Option<Outcome> {
    if r.Err? then Some(r.error.outcome) else None
  }

  /** The commands a call may hand over, to a card with or without a native session. */
  predicate Belongs(call: Call, native: bool, request: Request) {
    match call
    case Execute(command) => request == Native(command)
    case SelectApplication(application) => request == Select(application)
    case GetVersion => request == if native then Native(Command(0x60, [], [], Mac, 28, 28)) else Request.Discover(0x60)
    case FreeMemory => request == if native then Native(Command(0x6E, [], [], Mac, 3, 3)) else Request.Discover(0x6E)
    case FileIds => request == if native then Native(Command(0x6F, [], [], Mac, 0, 32)) else Request.Discover(0x6F)
    case DfNames => request.DfNameFrame?
    case AuthenticateNative(family, source, capabilities) =>
      request == Handshake(family, source, if family.Ev2First? then capabilities else 0)
    case AuthenticateIsoAes(reference, source) => request == AuthenticateIso(reference, KeyFrom(source).secret)
    case IsoCall(command) => request == Iso(command)
    case ExecuteTransaction(operations, returnMac) => Mutations(operations) && request in Plan(operations, returnMac)
    case ResetAuthentication => false
    case Reset => false
  }

  /** What is new in the log belongs to the call. */
  predicate Noted(before: Log, after: Log, call: Call, native: bool) {
    && before <= after
    && forall k :: |before| <= k < |after| && after[k].Attempt? ==> Belongs(call, native, after[k].request)
  }

  /** What was heard beyond the first `from` actions belongs to the call. */
  predicate Heard(heard: Log, from: nat, call: Call, native: bool) {
    forall k :: from <= k < |heard| && heard[k].Attempt? ==> Belongs(call, native, heard[k].request)
  }

  lemma NotedIsHeard(card: Card, before: Log, heard: Log, call: Call, native: bool)
    requires card.Valid() && Noted(before, card.log, call, native) && heard == card.prior + Actions(before)
    ensures Heard(card.link.heard, |heard|, call, native)
    ensures AttemptAt(card.log, |before|) || AttemptAt(card.log, |before| + 1) ==> |card.link.heard| > |heard|
  {
    card.StateIsSound();
    NewActionsAreNew(before, card.log);
    if AttemptAt(card.log, |before|) {
      AnAttemptIsAnAction(before, card.log, |before|);
    } else if AttemptAt(card.log, |before| + 1) {
      AnAttemptIsAnAction(before, card.log, |before| + 1);
    }
    forall k | |heard| <= k < |card.link.heard| && card.link.heard[k].Attempt?
      ensures Belongs(call, native, card.link.heard[k].request)
    {
      assert card.link.heard[k] == Actions(card.log)[k - |card.prior|];
    }
  }

  /** Exactly when a call made now succeeds; a transaction, with its many commands, is left out. */
  ghost predicate Succeeds(card: Card, call: Call, timeout: int)
    reads card, card.link
  {
    var link, t := card.link, card.link.tick;
    var current := card.usable && link.generation == card.generation;
    match call
    case Execute(command) =>
      CardManagement.Delivers(card, command) && CardManagement.Readable(command, link.script(t + 2).answer)
    case SelectApplication(_) =>
      && timeout > 0 && !link.script(t).stop && current
      && CardDiscovery.Granted(link, t + 1) && CardManagement.AnswerOf(link.script(t + 3).answer).bytes == []
    case GetVersion =>
      && CardDiscovery.Reaches(card, Request.Discover(0x60))
      && CardManagement.AnswerOf(link.script(t + 2).answer).decoding.Decoded?
    case FreeMemory =>
      && CardDiscovery.Reaches(card, Request.Discover(0x6E))
      && |CardManagement.AnswerOf(link.script(t + 2).answer).bytes| == 3
    case FileIds =>
      && CardDiscovery.Reaches(card, Request.Discover(0x6F))
      && CardDiscovery.IsFileList(CardManagement.AnswerOf(link.script(t + 2).answer).bytes)
    case DfNames =>
      && current && !card.Snap().HasSession() && !card.authenticationResetPending && link.script(t).bump == 0
      && CardDiscovery.Completes(link, t + 2)
    case AuthenticateNative(family, source, capabilities) =>
      var at := t + (if source.Direct? then 2 else 5);
      && current && (family.Ev2NonFirst? ==> card.ev2Session.Some?) && Clears(link, t, timeout)
      && ValidNativeSource(source, family) && (family.Ev2First? ==> capabilities <= 6) && Resolves(source, link, t + 2)
      && (!source.Direct? ==> link.script(t + 3).bump == 0)
      && Answers(link, at) && CardManagement.AnswerOf(link.script(at + 1).answer).sessionCreated
    case AuthenticateIsoAes(reference, source) =>
      && current && !card.authenticationResetPending && Clears(link, t, timeout)
      && ValidIsoSource(source, reference) && Resolves(source, link, t + 2)
      && (!source.Direct? ==> link.script(t + 3).bump == 0)
      && Answers(link, t + (if source.Direct? then 2 else 5))
    case IsoCall(command) =>
      && current && link.Prompt(t)
      && (command.resetsAuthentication || (!card.authenticationResetPending && !card.HasNativeSession()))
    case ExecuteTransaction(_, _) => false
    case ResetAuthentication => true
    case Reset => link.resettable && link.script(t).answer.Answered?
  }

  /** A transaction that nothing stands in the way of. */
  ghost predicate Unhindered(card: Card, call: Call, timeout: int)
    reads card, card.link
  {
    && call.ExecuteTransaction? && Mutations(call.operations) && 1 <= |call.operations| <= 128 && timeout > 0
    && WellAimed(call.operations, card.link.files)
    && CardTransactions.OpenAhead(card.Now().life, Plan(call.operations, call.returnMac), 0)
    && card.link.Obliging(card.link.tick) && card.link.generation == card.generation
  }

  method Discover(card: Card, call: Call, timeout: int) returns (failure: Option<Outcome>)
    requires card.Valid() && (call.GetVersion? || call.FreeMemory? || call.FileIds? || call.DfNames?)
    modifies card, card.link
    ensures card.Valid() && old(card.log) <= card.log && card.generation == old(card.generation)
    ensures failure == Some(Unknown) ==> !card.usable
    ensures failure.None? && Confirms(call) ==> card.link.generation == card.generation
    ensures Noted(old(card.log), card.log, call, old(card.HasNativeSession()))
    ensures failure.None? <==> old(Succeeds(card, call, timeout))
    ensures failure.None? ==> AttemptAt(card.log, |old(card.log)|) || AttemptAt(card.log, |old(card.log)| + 1)
  {
    match call
    case GetVersion =>
      var r := CardDiscovery.GetVersion(card, timeout);
      failure := FailureOf(r);
    case FreeMemory =>
      var r := CardDiscovery.FreeMemory(card, timeout);
      failure := FailureOf(r);
    case FileIds =>
      var r := CardDiscovery.FileIds(card, timeout);
      failure := FailureOf(r);
    case DfNames =>
      var r, _ := CardDiscovery.DfNames(card, timeout);
      failure := FailureOf(r);
  }

  method LogIn(card: Card, call: Call, timeout: int) returns (failure: Option<Outcome>)
    requires card.Valid() && (call.AuthenticateNative? || call.AuthenticateIsoAes?)
    modifies card, card.link
    ensures card.Valid() && old(card.log) <= card.log && card.generation == old(card.generation)
    ensures failure == Some(Unknown) ==> !card.usable
    ensures failure.None? ==> card.link.generation == card.generation
    ensures Noted(old(card.log), card.log, call, old(card.HasNativeSession()))
    ensures failure.None? <==> old(Succeeds(card, call, timeout))
    ensures failure.None? ==> AttemptAt(card.log, |old(card.log)|) || AttemptAt(card.log, |old(card.log)| + 1)
  {
    match call
    case AuthenticateNative(family, source, capabilities) =>
      var offered := if family.Ev2First? then capabilities else 0;
      var r := CardAuthentication.AuthenticateNative(card, family, source, offered, timeout);
      failure := FailureOf(r);
    case AuthenticateIsoAes(reference, source) =>
      var r := CardAuthentication.AuthenticateIsoAes(card, reference, source, timeout);
      failure := FailureOf(r);
  }

  method Talk(card: Card, call: Call, timeout: int) returns (failure: Option<Outcome>)
    requires card.Valid() && (call.Execute? || call.SelectApplication? || call.IsoCall?)
    modifies card, card.link
    ensures card.Valid() && old(card.log) <= card.log && card.generation == old(card.generation)
    ensures failure == Some(Unknown) ==> !card.usable
    ensures failure.None? ==> card.link.generation == card.generation
    ensures Noted(old(card.log), card.log, call, old(card.HasNativeSession()))
    ensures failure.None? <==> old(Succeeds(card, call, timeout))
    ensures failure.None? ==> AttemptAt(card.log, |old(card.log)|) || AttemptAt(card.log, |old(card.log)| + 1)
  {
    match call
    case Execute(command) =>
      var r := CardManagement.ExecuteLocked(card, command, timeout);
      failure := FailureOf(r);
    case SelectApplication(application) =>
      var r := CardDiscovery.SelectApplication(card, application, timeout);
      failure := FailureOf(r);
    case IsoCall(command) =>
      var r := CardIso7816.ExecuteIso(card, command, timeout);
      failure := FailureOf(r);
  }

  method Transact(card: Card, call: Call, timeout: int) returns (failure: Option<Outcome>)
    requires card.Valid() && call.ExecuteTransaction?
    modifies card, card.link
    ensures card.Valid() && old(card.log) <= card.log && card.generation == old(card.generation)
    ensures failure == Some(Unknown) ==> !card.usable
    ensures failure.None? ==> card.link.generation == card.generation
    ensures Heard(card.link.heard, |old(card.link.heard)|, call, old(card.HasNativeSession()))
    ensures old(Unhindered(card, call, timeout)) ==> failure.None?
    // Success means that the whole plan was heard.
    ensures failure.None? ==> Mutations(call.operations) &&
                              |card.link.heard| == |old(card.link.heard)| + |Plan(call.operations, call.returnMac)|
  {
    ghost var from := |card.link.heard|;
    var r := CardTransactions.ExecuteTransaction(card, call.operations, call.returnMac, timeout);
    failure := FailureOf(r);
    forall k | from <= k < |card.link.heard| && card.link.heard[k].Attempt?
      ensures Belongs(call, old(card.HasNativeSession()), card.link.heard[k].request)
    {
      assert card.link.heard[from..][k - from] == card.link.heard[k];
    }
  }

  method StartOver(card: Card, call: Call) returns (failure: Option<Outcome>)
    requires card.Valid() && (call.ResetAuthentication? || call.Reset?)
    modifies card, card.link
    ensures card.Valid() && old(card.log) <= card.log
    ensures card.generation == old(card.generation) ||
            (&& call.Reset? && failure.None?
             && card.generation > old(card.generation) && card.link.heard == old(card.link.heard))
    ensures failure == Some(Unknown) ==> !card.usable
    ensures Noted(old(card.log), card.log, call, old(card.HasNativeSession()))
    ensures failure.None? <==> old(Succeeds(card, call, 0))
    ensures failure.None? && call.Reset? ==> card.generation > old(card.generation)
  {
    if call.Reset? {
      var r := card.Reset();
      failure := FailureOf(r);
    } else {
      card.ResetAuthentication();
      failure := None;
    }
  }

  /** Make one call; only a reset that succeeds captures a new generation. */
  method Dispatch(card: Card, call: Call, timeout: int) returns (failure: Option<Outcome>)
    requires card.Valid()
    modifies card, card.link
    ensures card.Valid() && old(card.log) <= card.log
    ensures failure == Some(Unknown) ==> !card.usable
    ensures card.generation == old(card.generation) ||
            (&& call.Reset? && failure.None?
             && card.generation > old(card.generation) && card.link.heard == old(card.link.heard))
    ensures failure.None? && Confirms(call) ==> card.link.generation == card.generation
    // What is handed over belongs to the call, and exactly when it succeeds.
    ensures Heard(card.link.heard, |old(card.link.heard)|, call, old(card.HasNativeSession()))
    ensures !call.ExecuteTransaction? ==> (failure.None? <==> old(Succeeds(card, call, timeout)))
    ensures old(Unhindered(card, call, timeout)) ==> failure.None?
    ensures failure.None? && Talks(call) ==> |card.link.heard| > |old(card.link.heard)|
    ensures failure.None? && call.Reset? ==> card.generation > old(card.generation)
  {
    card.StateIsSound();
    ghost var log, heard, native := card.log, card.link.heard, card.HasNativeSession();
    if call.ExecuteTransaction? {
      failure := Transact(card, call, timeout);
    } else {
      if call.GetVersion? || call.FreeMemory? || call.FileIds? || call.DfNames? {
        failure := Discover(card, call, timeout);
      } else if call.AuthenticateNative? || call.AuthenticateIsoAes? {
        failure := LogIn(card, call, timeout);
      } else if call.Execute? || call.SelectApplication? || call.IsoCall? {
        failure := Talk(card, call, timeout);
      } else {
        failure := StartOver(card, call);
      }
      NotedIsHeard(card, log, heard, call, native);
    }
  }

  /**
   What the environment heard beyond the first `from` actions was looked for in this generation and handed
   over there or later, but not after `latest`.
   */
  ghost predicate HeardIn(heard: Log, from: nat, generation: nat, latest: nat) {
    from <= |heard| && forall k :: from <= k < |heard| ==> DatedFrom(heard[k], generation, latest)
  }

  /** Calls that hand something over. */
  predicate Talks(call: Call) {
    !call.ResetAuthentication? && !call.Reset?
  }

  /** Calls whose success proves that the captured generation is still the reported one. */
  predicate Confirms(call: Call) {
    !call.DfNames? && !call.ResetAuthentication? && !call.Reset?
  }

  /**
   Make one call: all it does outside the card follows a look in the captured generation, nothing is done on
   a dead card, and a success means that everything was handed over in the captured generation.
   */
  method Perform(card: Card, call: Call, timeout: int) returns (failure: Option<Outcome>)
    requires card.Valid()
    modifies card, card.link
    ensures card.Valid()
    ensures failure == Some(Unknown) ==> !card.usable
    ensures card.generation >= old(card.generation)
    ensures card.generation != old(card.generation) ==> call.Reset? && failure.None?
    ensures old(card.link.heard) <= card.link.heard
    ensures HeardIn(card.link.heard, |old(card.link.heard)|, old(card.generation), card.link.generation)
    ensures failure.None? && Confirms(call) ==>
              HeardIn(card.link.heard, |old(card.link.heard)|, old(card.generation), old(card.generation))
    ensures !old(card.usable) && card.generation == old(card.generation) ==>
              !card.usable && card.link.heard == old(card.link.heard)
    // What is handed over belongs to the call, and exactly when it succeeds.
    ensures Heard(card.link.heard, |old(card.link.heard)|, call, old(card.HasNativeSession()))
    ensures !call.ExecuteTransaction? ==> (failure.None? <==> old(Succeeds(card, call, timeout)))
    ensures old(Unhindered(card, call, timeout)) ==> failure.None?
    ensures failure.None? && Talks(call) ==> |card.link.heard| > |old(card.link.heard)|
    ensures failure.None? && call.Reset? ==> card.generation > old(card.generation)
  {
    card.StateIsSound();
    ghost var before := card.done;
    failure := Dispatch(card, call, timeout);
    if card.generation == old(card.generation) {
      card.StateIsSound();
      SameGeneration(card, old(card.log), card.prior + before);
    }
    card.Record(Returned(failure));
  }

  /** From a log and the actions heard with it to the present ones, within one captured generation. */
  lemma SameGeneration(card: Card, log: Log, heard: Log)
    requires card.Valid() && Lawful(card.log) && card.state == Fold(card.log) && card.done == Actions(card.log)
    requires 0 < |log| && log <= card.log && Fold(log).generation == card.generation
    requires heard == card.prior + Actions(log)
    ensures heard <= card.link.heard && HeardIn(card.link.heard, |heard|, card.generation, card.link.generation)
    ensures Fold(log).life.Dead? ==> !card.usable && card.link.heard == heard
  {
    assert card.log[..|log|] == log && card.log[..|card.log|] == card.log;
    ActionsFollowTheCapture(card.log, |log|, |card.log|);
    forall k | |heard| <= k < |card.link.heard|
      ensures DatedFrom(card.link.heard[k], card.generation, card.link.generation)
    {
      assert card.link.heard[k] == Actions(card.log)[k - |card.prior|];
    }
    if Fold(log).life.Dead? {
      DeadIsSilent(card.log, |log|, |card.log|);
    }
  }

  /* ------------------------------------------------------------------------------------------
     Whole runs
     ------------------------------------------------------------------------------------------ */

  /** Nothing is done outside the card between an uncertain answer and the next successful reset. */
  ghost predicate SilentAfterUncertainty(log: Log) {
    forall i, j :: 0 <= i < j < |log| && log[i] == Returned(Some(Unknown)) && Active(log[j]) ==>
      exists k :: i < k < j && log[k].ResetDone?
  }

  lemma NothingAfterUncertainty(log: Log)
    requires Lawful(log)
    ensures SilentAfterUncertainty(log)
  {
    forall i, j | 0 <= i < j < |log| && log[i] == Returned(Some(Unknown)) && Active(log[j])
      ensures exists k :: i < k < j && log[k].ResetDone?
    {
      if forall k :: i < k < j ==> !log[k].ResetDone? {
        QuiescentAfterUncertainty(log, i, j);
      }
    }
  }

  /** How a run went: before each call and at the end, the captured generation and how much had been heard. */
  datatype Story = Story(generations: seq<nat>, marks: seq<nat>, failures: seq<Option<Outcome>>)

  /** The answer to call `i` was uncertain and no reset has succeeded since, up to the start of call `j`. */
  predicate Silenced(story: Story, i: nat, j: nat)
    requires i < j < |story.generations| && i < |story.failures|
  {
    story.failures[i] == Some(Unknown) && story.generations[j] == story.generations[i + 1]
  }

  predicate Sized(story: Story, n: nat) {
    |story.generations| == |story.marks| == n + 1 && |story.failures| == n
  }

  /** Only a successful reset moves the captured generation, and only up. */
  predicate Ordered(story: Story, calls: seq<Call>, n: nat)
    requires Sized(story, n) && n <= |calls|
  {
    && (forall m :: 0 <= m < n && story.generations[m + 1] != story.generations[m] ==>
          calls[m].Reset? && story.failures[m].None?)
    && (forall a, b :: 0 <= a <= b <= n ==>
          story.generations[a] <= story.generations[b] && story.marks[a] <= story.marks[b])
  }

  /**
   What was heard during a call was looked for in the generation captured before it and handed over no
   earlier; and if the call succeeded, in exactly that generation.
   */
  predicate Placed(story: Story, calls: seq<Call>, heard: Log, n: nat)
    requires Sized(story, n) && n <= |calls|
  {
    forall m, k :: 0 <= m < n && story.marks[m] <= k < story.marks[m + 1] && k < |heard| && heard[k].Attempt? ==>
      && heard[k].seen == story.generations[m] <= heard[k].generation
      && (story.failures[m].None? && Confirms(calls[m]) ==> heard[k].generation == story.generations[m])
  }

  /** What was heard during a call belongs to it. */
  predicate Apt(story: Story, calls: seq<Call>, heard: Log, n: nat)
    requires Sized(story, n) && n <= |calls|
  {
    forall m, k :: 0 <= m < n && story.marks[m] <= k < story.marks[m + 1] && k < |heard| && heard[k].Attempt? ==>
      Belongs(calls[m], true, heard[k].request) || Belongs(calls[m], false, heard[k].request)
  }

  /**
   A call that succeeds has been heard, or is a reset. Local resets always succeed; a transport reset that
   succeeds captures a later generation, and it does succeed on a reader that can be reset and always answers.
   */
  predicate Fruitful(story: Story, calls: seq<Call>, n: nat, answering: bool)
    requires Sized(story, n) && n <= |calls|
  {
    forall m :: 0 <= m < n ==>
      && (story.failures[m].None? && Talks(calls[m]) ==> story.marks[m] < story.marks[m + 1])
      && (story.failures[m].None? && calls[m].Reset? ==> story.generations[m] < story.generations[m + 1])
      && (calls[m].ResetAuthentication? || (answering && calls[m].Reset?) ==> story.failures[m].None?)
  }

  /** While silenced, nothing is heard. */
  predicate Quiet(story: Story, n: nat)
    requires Sized(story, n)
  {
    forall i, j :: 0 <= i < j <= n && Silenced(story, i, j) ==> story.marks[j] == story.marks[i + 1]
  }

  /** A card silenced up to call `n` is unusable there. */
  predicate Unusable(story: Story, n: nat, usable: bool)
    requires Sized(story, n)
  {
    usable ==>
      forall i :: 0 <= i < n && story.failures[i] == Some(Unknown) ==> story.generations[i + 1] != story.generations[n]
  }

  function Extended(story: Story, generation: nat, mark: nat, failure: Option<Outcome>): Story {
    Story(story.generations + [generation], story.marks + [mark], story.failures + [failure])
  }

  /** One more call keeps generations and marks in order. */
  lemma OrderedStep(story: Story, calls: seq<Call>, n: nat, generation: nat, mark: nat, failure: Option<Outcome>)
    requires n < |calls| && Sized(story, n) && Ordered(story, calls, n)
    requires story.marks[n] <= mark && story.generations[n] <= generation
    requires generation != story.generations[n] ==> calls[n].Reset? && failure.None?
    ensures Ordered(Extended(story, generation, mark, failure), calls, n + 1)
  {
    var next := Extended(story, generation, mark, failure);
    forall a, b | 0 <= a <= b <= n + 1
      ensures next.generations[a] <= next.generations[b] && next.marks[a] <= next.marks[b]
    {
      if a <= n && b == n + 1 {
        assert story.generations[a] <= story.generations[n] && story.marks[a] <= story.marks[n];
      }
    }
  }

  lemma PlacedStep(story: Story, calls: seq<Call>, n: nat, heard: Log, heard': Log, generation: nat, latest: nat,
                   failure: Option<Outcome>)
    requires n < |calls| && Sized(story, n) && Ordered(story, calls, n) && Placed(story, calls, heard, n)
    requires story.marks[n] == |heard| && heard <= heard' && HeardIn(heard', |heard|, story.generations[n], latest)
    requires failure.None? && Confirms(calls[n]) ==>
               HeardIn(heard', |heard|, story.generations[n], story.generations[n])
    ensures Placed(Extended(story, generation, |heard'|, failure), calls, heard', n + 1)
  {
    var next := Extended(story, generation, |heard'|, failure);
    forall m, k | 0 <= m < n + 1 && next.marks[m] <= k < next.marks[m + 1] && k < |heard'| && heard'[k].Attempt?
      ensures && heard'[k].seen == next.generations[m] <= heard'[k].generation
              && (next.failures[m].None? && Confirms(calls[m]) ==> heard'[k].generation == next.generations[m])
    {
      if m < n {
        assert story.marks[m + 1] <= story.marks[n];
        assert heard'[k] == heard[k];
      } else {
        assert DatedFrom(heard'[k], story.generations[n], latest);
      }
    }
  }

  lemma AptStep(story: Story, calls: seq<Call>, n: nat, heard: Log, heard': Log, generation: nat,
                failure: Option<Outcome>, native: bool)
    requires n < |calls| && Sized(story, n) && Ordered(story, calls, n) && Apt(story, calls, heard, n)
    requires story.marks[n] == |heard| && heard <= heard' && Heard(heard', |heard|, calls[n], native)
    ensures Apt(Extended(story, generation, |heard'|, failure), calls, heard', n + 1)
  {
    var next := Extended(story, generation, |heard'|, failure);
    forall m, k | 0 <= m < n + 1 && next.marks[m] <= k < next.marks[m + 1] && k < |heard'| && heard'[k].Attempt?
      ensures Belongs(calls[m], true, heard'[k].request) || Belongs(calls[m], false, heard'[k].request)
    {
      if m < n {
        assert story.marks[m + 1] <= story.marks[n];
        assert heard'[k] == heard[k];
      } else {
        assert Belongs(calls[n], native, heard'[k].request);
      }
    }
  }

  lemma FruitfulStep(story: Story, calls: seq<Call>, n: nat, answering: bool, generation: nat, mark: nat,
                     failure: Option<Outcome>)
    requires n < |calls| && Sized(story, n) && Fruitful(story, calls, n, answering)
    requires failure.None? && Talks(calls[n]) ==> story.marks[n] < mark
    requires failure.None? && calls[n].Reset? ==> story.generations[n] < generation
    requires calls[n].ResetAuthentication? || (answering && calls[n].Reset?) ==> failure.None?
    ensures Fruitful(Extended(story, generation, mark, failure), calls, n + 1, answering)
  {
  }

  /** Silence goes on through a call on a dead card that captures no new generation. */
  lemma QuietStep(story: Story, calls: seq<Call>, n: nat, usable: bool, generation: nat, mark: nat,
                  failure: Option<Outcome>,
                  usable': bool)
    requires n < |calls| && Sized(story, n) && Ordered(story, calls, n) && Quiet(story, n) && Unusable(story, n, usable)
    requires story.generations[n] <= generation && (failure == Some(Unknown) ==> !usable')
    requires !usable && generation == story.generations[n] ==> !usable' && mark == story.marks[n]
    ensures Quiet(Extended(story, generation, mark, failure), n + 1)
    ensures Unusable(Extended(story, generation, mark, failure), n + 1, usable')
  {
    var next := Extended(story, generation, mark, failure);
    forall i | 0 <= i < n && next.failures[i] == Some(Unknown) && next.generations[i + 1] == generation
      ensures Silenced(story, i, n) && generation == story.generations[n] && !usable
    {
      assert story.generations[i + 1] <= story.generations[n];
    }
    forall i, j | 0 <= i < j <= n + 1 && Silenced(next, i, j) ensures next.marks[j] == next.marks[i + 1] {
      if j <= n {
        assert Silenced(story, i, j);
      } else if i < n {
        assert Silenced(story, i, n);
      }
    }
  }

  /** The story of the first `n` calls, told up to what has been heard now. */
  ghost predicate Tells(story: Story, calls: seq<Call>, n: nat, heard: Log, usable: bool) {
    && n <= |calls| && Sized(story, n) && story.marks[n] == |heard|
    && Ordered(story, calls, n) && Placed(story, calls, heard, n) && Quiet(story, n) && Unusable(story, n, usable)
  }

  lemma TellsNothingYet(generation: nat, calls: seq<Call>, heard: Log)
    ensures Tells(Story([generation], [|heard|], []), calls, 0, heard, true)
  {
  }

  /** One more call. */
  method Proceed(card: Card, calls: seq<Call>, n: nat, timeout: int, ghost story: Story) returns (ghost next: Story)
    requires card.Valid() && n < |calls| && Tells(story, calls, n, card.link.heard, card.usable)
    requires Apt(story, calls, card.link.heard, n) && Fruitful(story, calls, n, Answering(card.link))
    requires story.generations[n] == card.generation
    modifies card, card.link
    ensures card.Valid() && Tells(next, calls, n + 1, card.link.heard, card.usable)
    ensures next.generations[n + 1] == card.generation && next.marks[0] == story.marks[0]
    ensures Apt(next, calls, card.link.heard, n + 1) && Fruitful(next, calls, n + 1, Answering(card.link))
  {
    ghost var heard, usable, native := card.link.heard, card.usable, card.HasNativeSession();
    var failure := Perform(card, calls[n], timeout);
    OrderedStep(story, calls, n, card.generation, |card.link.heard|, failure);
    PlacedStep(story, calls, n, heard, card.link.heard, card.generation, card.link.generation, failure);
    QuietStep(story, calls, n, usable, card.generation, |card.link.heard|, failure, card.usable);
    AptStep(story, calls, n, heard, card.link.heard, card.generation, failure, native);
    FruitfulStep(story, calls, n, Answering(card.link), card.generation, |card.link.heard|, failure);
    next := Extended(story, card.generation, |card.link.heard|, failure);
  }

  /** The reader can be reset and every reply of it is an answer. */
  ghost predicate Answering(link: Reader) {
    link.resettable && forall n: nat :: link.script(n).answer.Answered?
  }

  /**
   Theorem: connect to any reader and make any calls. The fields are what the log says and the log is
   lawful, so every theorem about lawful logs holds of the run; what the log says was done outside the
   card is what the environment heard. Every call keeps to the generation captured before it, and after
   an uncertain answer the environment hears nothing more until a reset has succeeded.
   */
  method Run(link: Reader, calls: seq<Call>, timeouts: seq<int>) returns (card: Card, ghost story: Story)
    requires link.generation >= 1 && |timeouts| == |calls|
    modifies link
    ensures fresh(card) && card.link == link
    ensures Lawful(card.log) && card.Snap() == Concretize(Fold(card.log).generation, Fold(card.log).life)
    ensures Exclusive(card.Snap())
    ensures SilentAfterUncertainty(card.log)
    ensures link.heard == old(link.heard) + Actions(card.log)
    ensures Sized(story, |calls|) && Ordered(story, calls, |calls|)
    ensures story.marks[0] == |old(link.heard)| && story.marks[|calls|] == |link.heard|
    ensures story.generations[|calls|] == card.generation
    ensures Placed(story, calls, link.heard, |calls|)
    ensures Quiet(story, |calls|)
    ensures Apt(story, calls, link.heard, |calls|) && Fruitful(story, calls, |calls|, Answering(link))
  {
    card := new Card(link);
    story := Story([card.generation], [|link.heard|], []);
    TellsNothingYet(card.generation, calls, link.heard);
    for n := 0 to |calls|
      invariant fresh(card) && card.link == link && card.Valid() && card.prior == old(link.heard)
      invariant Tells(story, calls, n, link.heard, card.usable)
      invariant Apt(story, calls, link.heard, n) && Fruitful(story, calls, n, Answering(link))
      invariant story.generations[n] == card.generation && story.marks[0] == |old(link.heard)|
    {
      story := Proceed(card, calls, n, timeouts[n], story);
    }
    card.StateIsSound();
    ReachableCardIsExclusive(card.log);
    NothingAfterUncertainty(card.log);
  }

  const SOME_COMMAND: Command := Command(0x51, [], [], Mac, 0, 64)

  /** A card under a Standard AES session that was established smoothly. */
  method OpenStandard(script: nat -> Reply) returns (card: Card)
    requires forall n :: 0 <= n < 5 ==> script(n) == QUIET
    ensures fresh(card) && fresh(card.link) && card.Valid() && card.link.script == script && card.link.tick == 5
    ensures card.generation == card.link.generation == 1 && card.standardSession == Some(StandardSession(1))
    ensures card.Now().life.Live? && card.Now().life.auth.StandardAes? && !card.Now().life.pending
  {
    var link := new Reader(script, map[], Picc([], []), true);
    card := new Card(link);
    assert script(0) == script(1) == script(2) == script(3) == script(4) == QUIET;
    var authenticated := CardAuthentication.AuthenticateNative(card, StandardFamily, Direct(0, AesKey(true, 0)), 0, 1);
  }

  /**
   A change reported between look and lease, under a session: captured and looked for in generation one, the
   command is handed over in generation two under a session of generation one. It does not succeed, and the
   card is unusable afterwards.
   */
  method LateLeaseUnderSession() returns (captured: nat, born: nat, ghost handed: Entry, failed: bool, usable: bool)
    ensures captured == 1 && born == 1 && failed && !usable
    ensures handed.Attempt? && handed.request == Native(SOME_COMMAND) && handed.seen == 1 && handed.generation == 2
  {
    var card := OpenStandard((n: nat) => if n == 6 then QUIET.(bump := 1) else QUIET);
    captured, born := card.generation, card.standardSession.value.born;
    ghost var before := |card.link.heard|;
    var r := CardManagement.ExecuteLocked(card, SOME_COMMAND, 1);
    handed, failed, usable := card.link.heard[before], r.Err?, card.usable;
  }
}
