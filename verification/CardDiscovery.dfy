/** Plain discovery, application selection and frame-preserving enumeration. */
module CardDiscovery {
  import opened Results
  import opened CardTrace
  import opened Reader
  import opened ManagedCard
  import opened CardManagement

  const GET_VERSION: Command := Command(0x60, [], [], Mac, 28, 28)
  const FREE_MEMORY: Command := Command(0x6E, [], [], Mac, 3, 3)
  const GET_FILE_IDS: Command := Command(0x6F, [], [], Mac, 0, 32)
  const MAX_FILES: nat := 32
  const MAX_DF_FRAMES: nat := 4096

  predicate IsPlain(request: Request) {
    request.Discover? || request.Select?
  }

  /** The request as handed over at `at` under this lease, with an exchange that ended just now. */
  ghost function Asked(card: Card, request: Request, lease: nat, at: nat, timeout: int): Entry
    reads card, card.link
  {
    Attempt(request, card.generation, lease, at, timeout, card.link.now)
  }

  /** Entries that carry no change of authentication, selection or pending flag. */
  predicate Neutral(entries: Log) {
    forall e <- entries :: e.Attempt? || e.Invalidated? || e.SessionEnded?
  }

  /** The checked form under which a discovery command runs when a native session is active. */
  function CheckedForm(request: Request): Option<Command> {
    if request == Discover(0x60) then Some(GET_VERSION)
    else if request == Discover(0x6E) then Some(FREE_MEMORY)
    else if request == Discover(0x6F) then Some(GET_FILE_IDS)
    else None
  }

  /** What goes out for the request. */
  function FormOf(request: Request, native: bool): Request {
    if native && CheckedForm(request).Some? then Native(CheckedForm(request).value) else request
  }

  /** Why an unprotected exchange does not succeed, first reason first. */
  ghost function PlainFailure(card: Card): Error
    reads card, card.link
  {
    if !card.usable || card.authenticationResetPending || card.isoSession.Some? then Error(SessionInvalid)
    else if card.link.generation + card.link.script(card.link.tick).bump != card.generation then Error(CardRemoved)
    else if !Kept(card.link, card.link.tick + 1) then FailureFor(card.link.script(card.link.tick + 2).answer)
    else Error(CardRejected, Rejected)
  }

  /** Why a selection whose exchange begins at this tick of a card that was usable or not does not succeed. */
  function SelectionFailure(usable: bool, current: bool, link: Reader, tick: nat): Error {
    if !usable then Error(SessionInvalid)
    else if !current then Error(CardRemoved)
    else if !Kept(link, tick + 1) then FailureFor(link.script(tick + 2).answer)
    else if link.script(tick + 2).answer.payload.status != 0x00 then Error(CardRejected, Rejected)
    else Error(MalformedResponse, Unknown)
  }

  /** The request gets an answer of status zero within the captured generation. */
  ghost predicate Reaches(card: Card, request: Request)
    reads card, card.link
  {
    && card.usable && !card.authenticationResetPending && card.isoSession.None?
    && if card.HasNativeSession() then CheckedForm(request).Some? && Delivers(card, CheckedForm(request).value)
       else card.link.generation == card.generation && Granted(card.link, card.link.tick)
  }

  /**
   Execute an unauthenticated discovery command, or its checked form under a native session.
   An error leaves the card as it was or dead, and dead whenever it is uncertain.
   */
  method ExecutePlainLocked(card: Card, request: Request, timeout: int) returns (r: Result<Payload>)
    requires card.Valid() && IsPlain(request)
    modifies card, card.link
    ensures card.Valid() && card.generation == old(card.generation)
    ensures r.Ok? ==> old(card.link.generation) == card.link.generation == card.generation && card.usable
    ensures r.Ok? && !old(card.HasNativeSession()) ==>
              card.Snap() == old(card.Snap()) &&
              card.log == old(card.log) + [Asked(card, request, card.generation, old(card.link.now), timeout)] &&
              card.Now() == old(card.Now()).(inFlight := Some(request), latest := card.generation)
    ensures request.Select? && old(card.HasNativeSession()) ==>
              r.Err? && card.log == old(card.log) && card.Snap() == old(card.Snap())
    ensures old(card.log) <= card.log && Neutral(card.log[|old(card.log)|..])
    ensures r.Err? ==> !card.usable || card.Snap() == old(card.Snap())
    ensures request.Select? && card.usable ==>
              card.Now().parked == old(card.Now()).parked && card.Now().life == old(card.Now()).life
    ensures r.Uncertain() ==> !card.usable
    ensures r.Ok? <==> && old(Reaches(card, request))
                       && (old(card.HasNativeSession()) ==>
                             Readable(CheckedForm(request).value, card.link.script(old(card.link.tick) + 2).answer))
    // The same over the fields of the card.
    ensures r.Ok? <==>
            && old(card.usable) && !old(card.authenticationResetPending) && old(card.isoSession).None?
            && old(card.link.generation) + card.link.script(old(card.link.tick)).bump == card.generation
            && Kept(card.link, old(card.link.tick) + 1)
            && var payload := card.link.script(old(card.link.tick) + 2).answer.payload;
               if old(card.standardSession).None? && old(card.ev2Session).None? then payload.status == 0x00
               else
                 && request in {Discover(0x60), Discover(0x6E), Discover(0x6F)}
                 && (old(card.ev2Session).Some? ==> old(card.ev2Session).value.counter < 0xFFFF)
                 && (request == Discover(0x60) ==> payload.decoding.Decoded?)
    ensures r.Err? && old(Reaches(card, request)) ==> !card.usable
    // Which error, and whether the card survives it.
    ensures r.Err? && !old(card.HasNativeSession()) ==>
              && r.error == old(PlainFailure(card))
              && (card.usable <==>
                  && old(card.usable)
                  && (|| old(card.authenticationResetPending) || old(card.isoSession).Some?
                      || (&& old(card.link.generation) + card.link.script(old(card.link.tick)).bump == card.generation
                          && !r.Uncertain())))
    ensures r.Ok? ==> card.link.script(old(card.link.tick) + 2).answer.Answered? &&
                      SamePayload(r.value, card.link.script(old(card.link.tick) + 2).answer.payload)
    ensures LeasedIn(old(card.log), card.log, FormOf(request, old(card.HasNativeSession())), timeout,
                     card.generation + card.link.script(old(card.link.tick) + 1).bump)
    ensures r.Ok? ==> AttemptAt(card.log, |old(card.log)|)
  {
    if !card.usable {
      return Err(Error(SessionInvalid));
    }
    if card.authenticationResetPending {
      return Err(Error(SessionInvalid));
    }
    if card.isoSession.Some? {
      return Err(Error(SessionInvalid));
    }
    if card.HasNativeSession() {
      r := ExecuteChecked(card, request, timeout);
    } else {
      r := ExchangePlain(card, request, timeout);
    }
  }

  /** Under a native session only commands with a checked form are executed, in that form. */
  method ExecuteChecked(card: Card, request: Request, timeout: int) returns (r: Result<Payload>)
    requires card.Valid() && IsPlain(request)
    modifies card, card.link
    ensures card.Valid() && card.generation == old(card.generation)
    ensures CheckedForm(request).None? ==>
              && r == Err(Error(InvalidArgument)) && card.log == old(card.log)
              && card.Snap() == old(card.Snap()) && card.Now() == old(card.Now())
    ensures r.Ok? ==> old(card.link.generation) == card.link.generation == card.generation && card.usable
    ensures r.Ok? <==> && CheckedForm(request).Some? && old(Delivers(card, CheckedForm(request).value))
                       && Readable(CheckedForm(request).value, card.link.script(old(card.link.tick) + 2).answer)
    ensures r.Err? && CheckedForm(request).Some? && old(Delivers(card, CheckedForm(request).value)) ==> !card.usable
    ensures r.Ok? ==> card.link.script(old(card.link.tick) + 2).answer.Answered? &&
                      SamePayload(r.value, card.link.script(old(card.link.tick) + 2).answer.payload)
    ensures old(card.log) <= card.log && Neutral(card.log[|old(card.log)|..])
    ensures r.Err? ==> !card.usable || card.Snap() == old(card.Snap())
    ensures r.Uncertain() ==> !card.usable && request.Discover?
    ensures LeasedIn(old(card.log), card.log, FormOf(request, true), timeout,
                     card.generation + card.link.script(old(card.link.tick) + 1).bump)
    ensures r.Ok? ==> AttemptAt(card.log, |old(card.log)|)
  {
    var checked := CheckedForm(request);
    if checked.None? {
      return Err(Error(InvalidArgument));
    }
    r := ExecuteLocked(card, checked.value, timeout);
  }

  /** Exactly when an unauthenticated exchange succeeds. */
  predicate Granted(link: Reader, tick: nat) {
    link.Prompt(tick) && link.script(tick + 2).answer.payload.status == 0x00
  }

  /** Hand one unprotected request to the channel; no field depends on it yet. */
  method SendPlain(card: Card, request: Request, timeout: int) returns (answer: Answer)
    requires card.Valid() && IsPlain(request)
    requires card.usable && !card.authenticationResetPending && !card.Snap().HasSession()
    requires card.link.seen == card.generation
    modifies card, card.link
    ensures card.Valid() && card.Snap() == old(card.Snap())
    // Handed over in the captured generation exactly when no change was reported as the lease was opened.
    ensures var lease := old(card.link.generation) + card.link.script(old(card.link.tick)).bump;
            && card.log == old(card.log) + [Asked(card, request, lease, old(card.link.now), timeout)]
            && card.Now() == old(card.Now()).(inFlight := Some(request), latest := lease)
            && card.link.generation == lease + card.link.script(old(card.link.tick) + 1).bump
    ensures answer == card.link.script(old(card.link.tick) + 1).answer && card.link.tick == old(card.link.tick) + 2
  {
    answer := card.Send(request, timeout);
  }

  /** Send, and let the answer count only in the captured generation. */
  method AskPlain(card: Card, request: Request, timeout: int) returns (r: Result<Payload>)
    requires card.Valid() && IsPlain(request)
    requires card.usable && !card.authenticationResetPending && !card.Snap().HasSession()
    requires card.link.seen == card.link.generation == card.generation
    modifies card, card.link
    ensures card.Valid() && card.generation == old(card.generation)
    ensures r.Ok? <==> Kept(card.link, old(card.link.tick))
    ensures r.Ok? ==> Answered(r.value) == card.link.script(old(card.link.tick) + 1).answer
    ensures r.Ok? ==> card.usable && card.link.generation == card.generation
    ensures r.Ok? ==> card.log == old(card.log) + [Asked(card, request, card.generation, old(card.link.now), timeout)]
    ensures r.Ok? ==> card.Now() == old(card.Now()).(inFlight := Some(request), latest := card.generation)
    ensures card.usable ==> card.Snap() == old(card.Snap())
    ensures card.usable ==> card.Now().life == old(card.Now()).life && card.Now().parked == old(card.Now()).parked
    ensures old(card.log) <= card.log && Neutral(card.log[|old(card.log)|..])
    ensures r.Uncertain() ==> !card.usable
    ensures LeasedIn(old(card.log), card.log, request, timeout,
                     card.generation + card.link.script(old(card.link.tick)).bump)
    ensures r.Err? ==> r.error == FailureFor(card.link.script(old(card.link.tick) + 1).answer)
    ensures card.usable <==> !r.Uncertain()
  {
    var answer := SendPlain(card, request, timeout);
    r := Conclude(card, answer, false);
  }

  method ExchangePlain(card: Card, request: Request, timeout: int) returns (r: Result<Payload>)
    requires card.Valid() && IsPlain(request)
    requires card.usable && !card.authenticationResetPending && !card.Snap().HasSession()
    modifies card, card.link
    ensures card.Valid() && card.generation == old(card.generation)
    ensures r.Ok? ==> old(card.link.generation) == card.link.generation == card.generation && card.usable
    ensures r.Ok? <==> old(card.link.generation) == card.generation && Granted(card.link, old(card.link.tick))
    ensures r.Ok? ==> Answered(r.value) == card.link.script(old(card.link.tick) + 2).answer
    ensures r.Ok? ==> card.log == old(card.log) + [Asked(card, request, card.generation, old(card.link.now), timeout)]
    ensures card.usable ==> card.Snap() == old(card.Snap())
    ensures card.usable ==> card.Now().life == old(card.Now()).life && card.Now().parked == old(card.Now()).parked
    ensures r.Ok? ==> card.Now() == old(card.Now()).(inFlight := Some(request), latest := card.generation)
    ensures old(card.log) <= card.log && Neutral(card.log[|old(card.log)|..])
    ensures r.Uncertain() ==> !card.usable
    ensures LeasedIn(old(card.log), card.log, request, timeout,
                     card.generation + card.link.script(old(card.link.tick) + 1).bump)
    ensures r.Err? ==>
              && r.error == old(PlainFailure(card))
              && (card.usable <==>
                  && old(card.link.generation) + card.link.script(old(card.link.tick)).bump == card.generation
                  && !r.Uncertain())
    ensures r.Ok? ==> AttemptAt(card.log, |old(card.log)|)
  {
    var before := card.link.Look();
    if before != card.generation {
      card.InvalidateLocked();
      return Err(Error(CardRemoved));
    }
    r := AskPlain(card, request, timeout);
    if r.Ok? && r.value.status != 0x00 {
      r := Err(Error(CardRejected, Rejected));
    }
  }

  /** Select an application after erasing authentication bound to the old selection. */
  method SelectApplication(card: Card, application: nat, timeout: int) returns (r: Result<()>)
    requires card.Valid()
    modifies card, card.link
    ensures card.Valid() && card.generation == old(card.generation)
    // Success: nothing but the new selection is left, and it happened inside the captured generation.
    ensures r.Ok? ==> card.Snap() == Snapshot(true, None, None, None, None, false, Some(application), card.generation)
    ensures r.Ok? ==> old(card.link.generation) == card.link.generation == card.generation
    ensures r.Ok? ==> card.log != [] && card.log[|card.log| - 1] == Selected(application)
    // Failure: an unauthenticated card is as it was or dead; authentication never survives an attempt.
    ensures r.Err? ==> !card.usable || card.Snap() == old(card.Snap())
    ensures r.Err? && old(card.Snap()).HasSession() && card.usable ==>
              card.log == old(card.log) && r.error.outcome.NotSent?
    ensures r.Uncertain() ==> !card.usable
    ensures old(card.log) <= card.log
    // The exact condition for success; authentication and a pending reset never stand in the way.
    ensures r.Ok? <==> && timeout > 0 && !card.link.script(old(card.link.tick)).stop && old(card.usable)
                       && old(card.link.generation) == card.generation && Granted(card.link, old(card.link.tick) + 1)
                       && card.link.script(old(card.link.tick) + 3).answer.payload.bytes == []
    // Handed over in the captured generation exactly when no change was reported as the lease was opened.
    ensures LeasedIn(old(card.log), card.log, Select(application), timeout,
                     card.generation + card.link.script(old(card.link.tick) + 2).bump)
    // Which error, and whether the card survives it.
    ensures var link, t := card.link, old(card.link.tick);
            var current := old(card.link.generation) + link.script(t + 1).bump == card.generation;
            r.Err? ==>
              if timeout <= 0 || link.script(t).stop then
                && r.error == Error(if timeout <= 0 then InvalidArgument else Cancelled)
                && card.log == old(card.log) && card.Snap() == old(card.Snap())
              else
                && r.error == SelectionFailure(old(card.usable), current, link, t + 1)
                && (card.usable <==> old(card.usable) && !old(card.Snap()).HasSession() && current && !r.Uncertain())
    ensures r.Ok? ==> AttemptAt(card.log, |old(card.log)| + 1)
  {
    if timeout <= 0 {
      return Err(Error(InvalidArgument));
    }
    var _, stop := card.link.ReadClock();
    if stop {
      return Err(Error(Cancelled));
    }
    r := SelectLocked(card, application, timeout);
  }

  /** Erase authentication and the pending flag, then try the selection. */
  method SelectLocked(card: Card, application: nat, timeout: int) returns (r: Result<()>)
    requires card.Valid()
    modifies card, card.link
    ensures card.Valid() && card.generation == old(card.generation) && old(card.log) < card.log
    ensures r.Ok? ==> card.Snap() == Snapshot(true, None, None, None, None, false, Some(application), card.generation)
    ensures r.Ok? ==> old(card.link.generation) == card.link.generation == card.generation
    ensures r.Ok? ==> card.log != [] && card.log[|card.log| - 1] == Selected(application)
    ensures r.Err? ==> !card.usable || card.Snap() == old(card.Snap())
    ensures r.Err? && old(card.Snap()).HasSession() ==> !card.usable
    ensures r.Uncertain() ==> !card.usable
    ensures r.Ok? <==> && old(card.usable) && old(card.link.generation) == card.generation
                       && Granted(card.link, old(card.link.tick))
                       && card.link.script(old(card.link.tick) + 2).answer.payload.bytes == []
    ensures LeasedIn(old(card.log), card.log, Select(application), timeout,
                     card.generation + card.link.script(old(card.link.tick) + 1).bump)
    ensures var current := old(card.link.generation) + card.link.script(old(card.link.tick)).bump == card.generation;
            r.Err? ==>
              && r.error == SelectionFailure(old(card.usable), current, card.link, old(card.link.tick))
              && (card.usable <==> old(card.usable) && !old(card.Snap()).HasSession() && current && !r.Uncertain())
    ensures r.Ok? ==> AttemptAt(card.log, |old(card.log)| + 1)
  {
    var wasAuthenticated := card.HasNativeSession() || card.isoSession.Some?;
    var resetWasPending := card.authenticationResetPending;
    BeginSelection(card);
    r := AttemptSelection(card, application, wasAuthenticated, resetWasPending, timeout);
  }

  /** Send the selection from a card without authentication and settle what its answer means. */
  method AttemptSelection(card: Card, application: nat, wasAuthenticated: bool, resetWasPending: bool, timeout: int)
    returns (r: Result<()>)
    requires card.Valid() && !card.Snap().HasSession() && !card.authenticationResetPending
    requires card.usable && resetWasPending ==> card.Now().parked
    modifies card, card.link
    ensures card.Valid() && card.generation == old(card.generation) && old(card.log) <= card.log
    ensures r.Ok? ==> card.usable && card.Snap() == old(card.Snap()).(selectedApplication := Some(application))
    ensures r.Ok? ==> old(card.link.generation) == card.link.generation == card.generation
    ensures r.Ok? ==> |card.log| > |old(card.log)| && card.log[|card.log| - 1] == Selected(application)
    ensures r.Err? && card.usable ==> card.Snap() == old(card.Snap()).(authenticationResetPending := resetWasPending)
    ensures r.Err? && wasAuthenticated ==> !card.usable
    ensures r.Uncertain() ==> !card.usable
    ensures r.Ok? <==> && old(card.usable) && old(card.link.generation) == card.generation
                       && Granted(card.link, old(card.link.tick))
                       && card.link.script(old(card.link.tick) + 2).answer.payload.bytes == []
    ensures LeasedIn(old(card.log), card.log, Select(application), timeout,
                     card.generation + card.link.script(old(card.link.tick) + 1).bump)
    ensures var current := old(card.link.generation) + card.link.script(old(card.link.tick)).bump == card.generation;
            r.Err? ==>
              && r.error == SelectionFailure(old(card.usable), current, card.link, old(card.link.tick))
              && (card.usable <==> old(card.usable) && !wasAuthenticated && current && !r.Uncertain())
    ensures r.Ok? ==> AttemptAt(card.log, |old(card.log)|)
  {
    var response := ExecutePlainLocked(card, Select(application), timeout);
    if response.Err? {
      AbandonSelection(card, wasAuthenticated, resetWasPending, response.error.outcome);
      return Err(response.error);
    }
    if response.value.bytes != [] {
      card.InvalidateLocked();
      return Err(Error(MalformedResponse, Unknown));
    }
    InstallSelection(card, application);
    r := Ok(());
  }

  method BeginSelection(card: Card)
    requires card.Valid()
    modifies card
    ensures card.Valid() && card.log == old(card.log) + [SelectionBegun]
    ensures card.Snap() == old(card.Snap()).(standardSession := None, ev2Session := None, isoSession := None,
                                             authenticatedKey := None, authenticationResetPending := false)
    ensures card.usable ==> card.Now().parked == old(card.authenticationResetPending)
  {
    card.ClearNativeSession();
    card.isoSession := None;
    card.authenticatedKey := None;
    card.authenticationResetPending := false;
    card.Record(SelectionBegun);
  }

  /** A selection that failed kills a card that was authenticated and restores a pending reset. */
  method AbandonSelection(card: Card, wasAuthenticated: bool, resetWasPending: bool, outcome: Outcome)
    requires card.Valid()
    requires card.usable ==> !card.Snap().HasSession() && !card.authenticationResetPending && !outcome.Unknown?
    requires card.usable && resetWasPending ==> card.Now().parked
    modifies card
    ensures card.Valid() && old(card.log) <= card.log
    ensures card.usable <==> old(card.usable) && !wasAuthenticated
    ensures card.usable ==> card.Snap() == old(card.Snap()).(authenticationResetPending := resetWasPending)
    ensures card.generation == old(card.generation) && (outcome.Unknown? ==> !card.usable)
    ensures forall k :: |old(card.log)| <= k < |card.log| ==> !card.log[k].Attempt?
  {
    if wasAuthenticated {
      card.InvalidateLocked();
    } else if resetWasPending && card.usable {
      if outcome.Unknown? {
        assert false;
      } else {
        RestorePendingReset(card);
      }
    }
  }

  method RestorePendingReset(card: Card)
    requires card.Valid() && card.usable && card.Now().parked && !card.Snap().HasSession()
    modifies card
    ensures card.Valid() && card.log == old(card.log) + [PendingRestored]
    ensures card.Snap() == old(card.Snap()).(authenticationResetPending := true)
  {
    card.authenticationResetPending := true;
    card.Record(PendingRestored);
  }

  method InstallSelection(card: Card, application: nat)
    requires card.Valid() && card.usable && !card.authenticationResetPending && !card.Snap().HasSession()
    requires card.Now().inFlight == Some(Select(application))
    modifies card
    ensures card.Valid() && card.log == old(card.log) + [Selected(application)]
    ensures card.Snap() == old(card.Snap()).(selectedApplication := Some(application))
  {
    card.selectedApplication := Some(application);
    card.Record(Selected(application));
  }

  method GetVersion(card: Card, timeout: int) returns (r: Result<Payload>)
    requires card.Valid()
    modifies card, card.link
    ensures card.Valid() && card.generation == old(card.generation) && old(card.log) <= card.log
    ensures r.Ok? ==> old(card.link.generation) == card.link.generation == card.generation && card.usable
    ensures r.Err? ==> !card.usable || card.Snap() == old(card.Snap())
    ensures r.Uncertain() ==> !card.usable
    // Success is an answer of the form prescribed; one of another form kills the card.
    ensures var payload := AnswerOf(card.link.script(old(card.link.tick) + 2).answer);
            && (r.Ok? <==> old(Reaches(card, Discover(0x60))) && payload.decoding.Decoded?)
            && (r.Err? && old(Reaches(card, Discover(0x60))) ==> !card.usable)
    ensures LeasedIn(old(card.log), card.log,
                     if old(card.HasNativeSession()) then Native(Command(0x60, [], [], Mac, 28, 28))
                     else Discover(0x60),
                     timeout, card.generation + card.link.script(old(card.link.tick) + 1).bump)
    ensures r.Ok? ==> SamePayload(r.value, card.link.script(old(card.link.tick) + 2).answer.payload)
    ensures r.Ok? ==> AttemptAt(card.log, |old(card.log)|)
  {
    r := ExecutePlainLocked(card, Discover(0x60), timeout);
    if r.Ok? && !r.value.decoding.Decoded? {
      card.InvalidateLocked();
      r := Err(r.value.decoding.Failure());
    }
  }

  method FreeMemory(card: Card, timeout: int) returns (r: Result<nat>)
    requires card.Valid()
    modifies card, card.link
    ensures card.Valid() && card.generation == old(card.generation) && old(card.log) <= card.log
    ensures r.Ok? ==> old(card.link.generation) == card.link.generation == card.generation && card.usable
    ensures r.Err? ==> !card.usable || card.Snap() == old(card.Snap())
    ensures r.Uncertain() ==> !card.usable
    ensures r.Ok? ==> card.link.script(old(card.link.tick) + 2).answer.Answered? &&
                      var bytes := card.link.script(old(card.link.tick) + 2).answer.payload.bytes;
                      |bytes| == 3 && r.value == bytes[0] + 0x100 * bytes[1] + 0x1_0000 * bytes[2]
    // Success is an answer of the form prescribed; one of another form kills the card.
    ensures var payload := AnswerOf(card.link.script(old(card.link.tick) + 2).answer);
            && (r.Ok? <==> old(Reaches(card, Discover(0x6E))) && |payload.bytes| == 3)
            && (r.Err? && old(Reaches(card, Discover(0x6E))) ==> !card.usable)
    ensures LeasedIn(old(card.log), card.log,
                     if old(card.HasNativeSession()) then Native(Command(0x6E, [], [], Mac, 3, 3))
                     else Discover(0x6E),
                     timeout, card.generation + card.link.script(old(card.link.tick) + 1).bump)
    ensures r.Ok? ==> AttemptAt(card.log, |old(card.log)|)
  {
    var payload := ExecutePlainLocked(card, Discover(0x6E), timeout);
    if payload.Err? {
      return Err(payload.error);
    }
    var bytes := payload.value.bytes;
    if |bytes| != 3 {
      card.InvalidateLocked();
      return Err(Error(MalformedResponse, Unknown));
    }
    r := Ok(bytes[0] + 0x100 * bytes[1] + 0x1_0000 * bytes[2]);
  }

  /** At most 32 file numbers, each legal, none twice. */
  predicate IsFileList(bytes: seq<nat>) {
    && |bytes| <= 32 && (forall i :: 0 <= i < |bytes| ==> bytes[i] < 32)
    && (forall i, j :: 0 <= i < j < |bytes| ==> bytes[i] != bytes[j])
  }

  /** Read the native file identifiers; a list with a repeated or impossible number kills the card. */
  method FileIds(card: Card, timeout: int) returns (r: Result<seq<nat>>)
    requires card.Valid()
    modifies card, card.link
    ensures card.Valid() && card.generation == old(card.generation) && old(card.log) <= card.log
    ensures r.Ok? ==> old(card.link.generation) == card.link.generation == card.generation && card.usable
    ensures r.Err? ==> !card.usable || card.Snap() == old(card.Snap())
    ensures r.Uncertain() ==> !card.usable
    ensures r.Ok? ==> card.link.script(old(card.link.tick) + 2).answer.Answered? &&
                      card.link.script(old(card.link.tick) + 2).answer.payload.bytes == r.value
    // Success is an answer of the form prescribed; one of another form kills the card.
    ensures var payload := AnswerOf(card.link.script(old(card.link.tick) + 2).answer);
            && (r.Ok? <==> && old(Reaches(card, Discover(0x6F))) && |payload.bytes| <= 32
                           && (forall i :: 0 <= i < |payload.bytes| ==> payload.bytes[i] < 32)
                           && (forall i, j :: 0 <= i < j < |payload.bytes| ==> payload.bytes[i] != payload.bytes[j]))
            && (r.Err? && old(Reaches(card, Discover(0x6F))) ==> !card.usable)
    ensures LeasedIn(old(card.log), card.log,
                     if old(card.HasNativeSession()) then Native(Command(0x6F, [], [], Mac, 0, 32))
                     else Discover(0x6F),
                     timeout, card.generation + card.link.script(old(card.link.tick) + 1).bump)
    ensures r.Ok? ==> AttemptAt(card.log, |old(card.log)|)
  {
    var payload := ExecutePlainLocked(card, Discover(0x6F), timeout);
    if payload.Err? {
      return Err(payload.error);
    }
    var bytes := payload.value.bytes;
    if |bytes| > MAX_FILES {
      card.InvalidateLocked();
      return Err(Error(MalformedResponse, Unknown));
    }
    var files := [];
    for n := 0 to |bytes|
      invariant files == bytes[..n]
      invariant forall i :: 0 <= i < n ==> bytes[i] < MAX_FILES
      invariant forall i, j :: 0 <= i < j < n ==> bytes[i] != bytes[j]
      invariant card.Valid() && card.usable && card.generation == old(card.generation) && old(card.log) <= card.log
      invariant AttemptAt(card.log, |old(card.log)|)
      invariant old(card.link.generation) == card.link.generation == card.generation
      invariant LeasedIn(old(card.log), card.log, FormOf(Discover(0x6F), old(card.HasNativeSession())), timeout,
                         card.generation + card.link.script(old(card.link.tick) + 1).bump)
    {
      if bytes[n] >= MAX_FILES || bytes[n] in files {
        card.InvalidateLocked();
        return Err(Error(MalformedResponse, Unknown));
      }
      files := files + [bytes[n]];
    }
    r := Ok(files);
  }

  predicate ValidDfFrame(payload: Payload) {
    && |payload.bytes| <= 29
    && (payload.status == 0xAF ==> 0 < |payload.bytes| <= 21)
  }

  /** A DF-name record: identifier and file identifier, then the name, for a nonzero application. */
  predicate DecodesAsDfName(record: seq<nat>) {
    5 <= |record| <= 21 && (record[0] != 0 || record[1] != 0 || record[2] != 0)
  }

  /** The payload of the exchange at this tick; what is not answered counts as blank. */
  function PayloadAt(link: Reader, tick: nat): Payload {
    if link.script(tick).answer.Answered? then link.script(tick).answer.payload else BLANK
  }

  /** A frame that begins at this tick - a read, the frame, a read - is answered while its lease holds. */
  predicate Framed(link: Reader, tick: nat) {
    && link.script(tick).bump == 0 && link.script(tick + 1).bump == 0 && link.script(tick + 2).bump == 0
    && link.script(tick + 1).answer.Answered?
  }

  /** Frame `i` of an enumeration whose frames begin at this tick. */
  function FrameAt(link: Reader, tick: nat, i: nat): Payload {
    PayloadAt(link, tick + 3 * i + 1)
  }

  /** The frame that begins at this tick is answered and has a form and status a frame may have. */
  predicate Good(link: Reader, tick: nat) {
    && Framed(link, tick) && ValidDfFrame(PayloadAt(link, tick + 1))
    && (PayloadAt(link, tick + 1).status == 0x00 || PayloadAt(link, tick + 1).status == 0xAF)
  }

  predicate GoodFrame(link: Reader, tick: nat, i: nat) {
    Good(link, tick + 3 * i)
  }

  /** Frame `i` announces another one. */
  predicate Continued(link: Reader, tick: nat, i: nat) {
    GoodFrame(link, tick, i) && FrameAt(link, tick, i).status == 0xAF
  }

  /** What the first `m` frames carried, in order, empty frames left out. */
  function Records(link: Reader, tick: nat, m: nat): seq<seq<nat>>
    decreases m, tick
  {
    if m == 0 then []
    else
      var bytes := FrameAt(link, tick, m - 1).bytes;
      Records(link, tick, m - 1) + (if bytes == [] then [] else [bytes])
  }

  predicate AllDecode(records: seq<seq<nat>>) {
    forall i :: 0 <= i < |records| ==> DecodesAsDfName(records[i])
  }

  /** Exactly `m` good frames end the enumeration, and every record decodes. */
  predicate Complete(link: Reader, tick: nat, m: nat) {
    && 1 <= m <= MAX_DF_FRAMES
    && (forall i :: 0 <= i < m - 1 ==> Continued(link, tick, i))
    && GoodFrame(link, tick, m - 1) && FrameAt(link, tick, m - 1).status == 0x00
    && AllDecode(Records(link, tick, m))
  }

  lemma ContinuedMeans(link: Reader, tick: nat, i: nat)
    ensures Continued(link, tick, i) <==>
            && Framed(link, tick + 3 * i) && FrameAt(link, tick, i).status == 0xAF
            && 1 <= |FrameAt(link, tick, i).bytes| <= 21
  {
  }

  /** The same in terms of the frames: their sizes, their status and the records they carry. */
  lemma CompleteMeans(link: Reader, tick: nat, m: nat)
    ensures Complete(link, tick, m) <==>
            && 1 <= m <= 4096
            && (forall i :: 0 <= i < m - 1 ==>
                  && Framed(link, tick + 3 * i) && FrameAt(link, tick, i).status == 0xAF
                  && 1 <= |FrameAt(link, tick, i).bytes| <= 21)
            && Framed(link, tick + 3 * (m - 1)) && FrameAt(link, tick, m - 1).status == 0x00
            && |FrameAt(link, tick, m - 1).bytes| <= 29
            && forall record <- Records(link, tick, m) ::
                 5 <= |record| <= 21 && (record[0] != 0 || record[1] != 0 || record[2] != 0)
  {
    if Complete(link, tick, m) {
      forall i | 0 <= i < m - 1
        ensures Framed(link, tick + 3 * i) && FrameAt(link, tick, i).status == 0xAF
        ensures 1 <= |FrameAt(link, tick, i).bytes| <= 21
      {
        assert Continued(link, tick, i);
        ContinuedMeans(link, tick, i);
      }
    }
    var records := Records(link, tick, m);
    assert forall i :: 0 <= i < |records| ==> records[i] in records;
    assert AllDecode(records) <==> forall record <- records :: DecodesAsDfName(record);
  }

  /** The enumeration ends well after some number of frames. */
  ghost predicate Completes(link: Reader, tick: nat) {
    exists m: nat :: Complete(link, tick, m)
  }

  /** These are the records of the enumeration that ends well: frame by frame, without a last frame that is empty. */
  ghost predicate Yields(link: Reader, tick: nat, records: seq<seq<nat>>) {
    exists m: nat :: Complete(link, tick, m) && InOrder(link, tick, m, records)
  }

  predicate InOrder(link: Reader, tick: nat, m: nat, records: seq<seq<nat>>) {
    && |records| == (if m > 0 && FrameAt(link, tick, m - 1).bytes == [] then m - 1 else m)
    && forall i :: 0 <= i < |records| ==> records[i] == FrameAt(link, tick, i).bytes
  }

  lemma {:induction false} RecordsAreInOrder(link: Reader, tick: nat, m: nat)
    requires forall i :: 0 <= i < m - 1 ==> Continued(link, tick, i)
    ensures InOrder(link, tick, m, Records(link, tick, m))
  {
    if m > 0 {
      RecordsAreInOrder(link, tick, m - 1);
      assert m > 1 ==> Continued(link, tick, m - 2);
    }
  }

  /** An enumeration that ends well goes on with a good frame wherever it has not ended yet. */
  lemma CompleteGoesOn(link: Reader, tick: nat, n: nat, m: nat)
    requires Complete(link, tick, m) && forall i :: 0 <= i < n ==> Continued(link, tick, i)
    ensures n < m && GoodFrame(link, tick, n) && (FrameAt(link, tick, n).status == 0x00 ==> m == n + 1)
  {
    assert m - 1 < n ==> Continued(link, tick, m - 1);
    assert n < m - 1 ==> Continued(link, tick, n);
  }

  /** A first frame that is the last yields the one record it carries. */
  lemma SingleFrame(link: Reader, tick: nat, records: seq<seq<nat>>)
    requires Yields(link, tick, records) && GoodFrame(link, tick, 0)
    requires FrameAt(link, tick, 0).status == 0x00 && FrameAt(link, tick, 0).bytes != []
    ensures records == [FrameAt(link, tick, 0).bytes]
  {
    var m: nat :| Complete(link, tick, m) && InOrder(link, tick, m, records);
    CompleteGoesOn(link, tick, 0, m);
  }

  /** After `n` frames that each announced another one, these are the records so far. */
  ghost predicate Following(link: Reader, tick: nat, n: nat, records: seq<seq<nat>>) {
    records == Records(link, tick, n) && forall i :: 0 <= i < n ==> Continued(link, tick, i)
  }

  lemma FollowingNext(link: Reader, tick: nat, n: nat, records: seq<seq<nat>>, next: seq<seq<nat>>)
    requires Following(link, tick, n, records) && GoodFrame(link, tick, n)
    requires var bytes := FrameAt(link, tick, n).bytes; next == records + (if bytes == [] then [] else [bytes])
    ensures next == Records(link, tick, n + 1)
    ensures FrameAt(link, tick, n).status != 0x00 ==> Following(link, tick, n + 1, next)
  {
  }

  lemma DoesNotComplete(link: Reader, tick: nat, n: nat, records: seq<seq<nat>>)
    requires Following(link, tick, n, records)
    requires || n >= MAX_DF_FRAMES || !GoodFrame(link, tick, n)
             || (FrameAt(link, tick, n).status == 0x00 && !AllDecode(Records(link, tick, n + 1)))
    ensures !Completes(link, tick)
  {
    forall m: nat ensures !Complete(link, tick, m) {
      if Complete(link, tick, m) {
        CompleteGoesOn(link, tick, n, m);
      }
    }
  }

  /** What is new are frames of one lease, of which only the first asks anew, and perhaps the end of the card. */
  predicate FramesIn(before: Log, after: Log, timeout: int, lease: nat) {
    && before <= after
    && forall k :: |before| <= k < |after| ==>
         || after[k].Invalidated?
         || (&& after[k].Attempt? && after[k].request == DfNameFrame(k == |before|)
             && after[k].timeout == timeout && after[k].generation == lease)
  }

  /** Another frame, and perhaps the end of the card. */
  predicate FrameAdded(before: Log, after: Log, first: bool, timeout: int, lease: nat) {
    && before <= after
    && forall k :: |before| <= k < |after| ==>
         || after[k].Invalidated?
         || (&& k == |before| && after[k].Attempt? && after[k].request == DfNameFrame(first)
             && after[k].timeout == timeout && after[k].generation == lease)
  }

  /** After `n` frames another one is the first exactly when there were none. */
  lemma FramesNext(before: Log, middle: Log, after: Log, n: nat, timeout: int, lease: nat)
    requires FramesIn(before, middle, timeout, lease) && |middle| == |before| + n
    requires FrameAdded(middle, after, n == 0, timeout, lease)
    ensures FramesIn(before, after, timeout, lease)
  {
    forall k | |before| <= k < |middle| ensures after[k] == middle[k] {
    }
  }

  method SendFrame(card: Card, first: bool, timeout: int) returns (answer: Answer)
    requires card.Valid() && Admissible(card.Now().life, DfNameFrame(first)) && card.link.seen == card.generation
    modifies card, card.link
    ensures card.Valid() && card.Snap() == old(card.Snap()) && card.Now().life == old(card.Now()).life
    ensures answer == card.link.script(old(card.link.tick)).answer && card.link.tick == old(card.link.tick) + 1
    ensures card.link.generation == old(card.link.generation) + card.link.script(old(card.link.tick)).bump
    ensures FrameAdded(old(card.log), card.log, first, timeout, old(card.link.generation))
    ensures |card.log| == |old(card.log)| + 1 && AttemptAt(card.log, |old(card.log)|)
    ensures card.link.seen == old(card.link.seen)
  {
    answer := card.Hand(DfNameFrame(first), timeout);
  }

  /**
   One physical frame of the exclusive lease opened in generation `lease`; a failure after the
   first frame is never reported as unsent.
   */
  method ExchangeLeasedFrame(card: Card, lease: nat, first: bool, timeout: int) returns (answer: Answer)
    requires card.Valid() && Admissible(card.Now().life, DfNameFrame(first))
    requires card.link.seen == card.generation && card.link.generation == lease
    modifies card, card.link
    ensures card.Valid() && card.Snap() == old(card.Snap()) && card.Now().life == old(card.Now()).life
    ensures card.link.generation >= lease && card.link.seen == card.generation
    ensures FrameAdded(old(card.log), card.log, first, timeout, lease)
    ensures answer.Answered? ==> |card.log| == |old(card.log)| + 1 && AttemptAt(card.log, |old(card.log)|)
    ensures answer.Answered? <==> Framed(card.link, old(card.link.tick))
    ensures answer.Answered? ==> card.link.generation == lease && card.link.tick == old(card.link.tick) + 3
    ensures answer.Answered? ==> answer == card.link.script(old(card.link.tick) + 1).answer
    // After the first frame no failure is evidence that nothing was sent.
    ensures !answer.Answered? ==>
              answer == var given := card.link.script(old(card.link.tick) + 1).answer;
                        if card.link.script(old(card.link.tick)).bump != 0 then
                          Failed(Error(CardRemoved, if first then NotSent else Unknown))
                        else if given.Answered? then Failed(Error(CardRemoved, Unknown))
                        else if given.Failed? && given.error.outcome.NotSent? && !first then
                          Failed(Error(given.error.code, Unknown))
                        else given
  {
    var sentOutcome := if first then NotSent else Unknown;
    var before := card.link.ReadGeneration();
    if before != lease {
      return Failed(Error(CardRemoved, sentOutcome));
    }
    answer := SendFrame(card, first, timeout);
    if answer.Failed? && answer.error.outcome.NotSent? && !first {
      answer := Failed(Error(answer.error.code, Unknown));
    }
    if answer.Answered? {
      var after := card.link.ReadGeneration();
      if after != lease {
        answer := Failed(Error(CardRemoved, Unknown));
      }
    }
  }

  /**
   Read the DF names frame by frame. The names come from the generation in which the lease was
   opened, which the code compares with the captured one only before opening it.
   */
  method DfNames(card: Card, timeout: int) returns (r: Result<seq<seq<nat>>>, ghost lease: nat)
    requires card.Valid()
    modifies card, card.link
    ensures card.Valid() && card.generation == old(card.generation)
    ensures FramesIn(old(card.log), card.log, timeout, lease)
    // Success has one exact condition, and returns what the frames carried.
    ensures r.Ok? <==> && old(card.usable) && !old(card.Snap()).HasSession() && !old(card.authenticationResetPending)
                       && old(card.link.generation) + card.link.script(old(card.link.tick)).bump == card.generation
                       && Completes(card.link, old(card.link.tick) + 2)
    ensures r.Ok? ==> Yields(card.link, old(card.link.tick) + 2, r.value)
    ensures r.Ok? ==> card.Snap() == old(card.Snap()) && card.usable
    // The names belong to the captured generation exactly when no change was reported while the lease was opened.
    ensures r.Ok? ==> card.link.generation == lease == card.generation + card.link.script(old(card.link.tick) + 1).bump
    ensures r.Err? ==> !card.usable || card.Snap() == old(card.Snap())
    ensures r.Uncertain() ==> !card.usable
    // Which error a refusal gives, and whether the card survives.
    ensures !old(card.usable) || old(card.isoSession).Some? || old(card.authenticationResetPending) ==>
              r == Err(Error(SessionInvalid)) && card.log == old(card.log) && card.Snap() == old(card.Snap())
    ensures old(card.usable) && !old(card.authenticationResetPending) && old(card.HasNativeSession()) ==>
              r == Err(Error(Authentication)) && card.log == old(card.log) && card.Snap() == old(card.Snap())
    ensures old(card.usable) && !old(card.authenticationResetPending) && !old(card.Snap()).HasSession() ==>
              if old(card.link.generation) + card.link.script(old(card.link.tick)).bump != card.generation then
                r == Err(Error(CardRemoved)) && card.log == old(card.log) + [Invalidated] && !card.usable
              else card.usable <==> !r.Uncertain()
    ensures r.Ok? ==> AttemptAt(card.log, |old(card.log)|)
  {
    lease := 0;
    if !card.usable || card.isoSession.Some? || card.authenticationResetPending {
      return Err(Error(SessionInvalid)), lease;
    }
    if card.HasNativeSession() {
      return Err(Error(Authentication)), lease;
    }
    var before := card.link.Look();
    if before != card.generation {
      card.InvalidateLocked();
      return Err(Error(CardRemoved)), lease;
    }
    var leased := card.link.ReadGeneration();
    lease := leased;
    r := ReadFrames(card, leased, timeout);
  }

  /** One frame of the enumeration, good or the end of it. */
  method ReadFrame(card: Card, lease: nat, first: bool, timeout: int) returns (r: Result<Payload>)
    requires card.Valid() && Admissible(card.Now().life, DfNameFrame(first))
    requires card.link.seen == card.generation && card.link.generation == lease
    modifies card, card.link
    ensures card.Valid() && card.generation == old(card.generation)
    ensures FrameAdded(old(card.log), card.log, first, timeout, lease)
    ensures r.Ok? ==> |card.log| == |old(card.log)| + 1 && AttemptAt(card.log, |old(card.log)|)
    ensures r.Ok? <==> Good(card.link, old(card.link.tick))
    ensures r.Ok? ==> r.value == PayloadAt(card.link, old(card.link.tick) + 1)
    ensures r.Ok? ==> card.link.tick == old(card.link.tick) + 3
    ensures r.Ok? ==> card.link.seen == card.generation && card.link.generation == lease
    ensures r.Ok? ==> card.Snap() == old(card.Snap()) && card.Now().life == old(card.Now()).life
    ensures card.usable ==> card.Snap() == old(card.Snap())
    ensures card.usable <==> old(card.usable) && !r.Uncertain()
  {
    var answer := ExchangeLeasedFrame(card, lease, first, timeout);
    if answer.Answered? && ValidDfFrame(answer.payload) && answer.payload.status in {0x00, 0xAF} {
      return Ok(answer.payload);
    }
    var error := AbandonFrames(card, answer);
    r := Err(error);
  }

  /** One frame, and the records with what it carried; or the certainty that the enumeration does not end well. */
  method ReadRecord(card: Card, lease: nat, ghost start: nat, index: nat, records: seq<seq<nat>>, timeout: int)
    returns (frame: Result<Payload>, next: seq<seq<nat>>)
    requires card.Valid() && Admissible(card.Now().life, DfNameFrame(index == 0))
    requires card.link.seen == card.generation && card.link.generation == lease
    requires card.link.tick == start + 3 * index && Following(card.link, start, index, records)
    modifies card, card.link
    ensures card.Valid() && card.generation == old(card.generation)
    ensures FrameAdded(old(card.log), card.log, index == 0, timeout, lease)
    ensures frame.Ok? ==> |card.log| == |old(card.log)| + 1 && AttemptAt(card.log, |old(card.log)|)
    ensures frame.Ok? ==> card.Snap() == old(card.Snap()) && card.Now().life == old(card.Now()).life
    ensures frame.Ok? ==> card.link.seen == card.generation && card.link.generation == lease
    ensures frame.Ok? ==> card.link.tick == start + 3 * (index + 1) && GoodFrame(card.link, start, index)
    ensures frame.Ok? ==> frame.value == FrameAt(card.link, start, index)
    ensures frame.Ok? ==> next == Records(card.link, start, index + 1)
    ensures frame.Ok? && frame.value.status != 0x00 ==> Following(card.link, start, index + 1, next)
    ensures frame.Err? ==> !Completes(card.link, start)
    ensures card.usable ==> card.Snap() == old(card.Snap())
    ensures card.usable <==> old(card.usable) && !frame.Uncertain()
  {
    next := records;
    frame := ReadFrame(card, lease, index == 0, timeout);
    if frame.Err? {
      DoesNotComplete(card.link, start, index, records);
      return;
    }
    if frame.value.bytes != [] {
      next := records + [frame.value.bytes];
    }
    FollowingNext(card.link, start, index, records, next);
  }

  /** Follow the frames of one lease to the last and decode what they carried. */
  method ReadFrames(card: Card, lease: nat, timeout: int) returns (r: Result<seq<seq<nat>>>)
    requires card.Valid() && card.usable && !card.Snap().HasSession() && !card.authenticationResetPending
    requires card.link.seen == card.generation && card.link.generation == lease
    modifies card, card.link
    ensures card.Valid() && card.generation == old(card.generation)
    ensures FramesIn(old(card.log), card.log, timeout, lease)
    ensures r.Ok? <==> Completes(card.link, old(card.link.tick))
    ensures r.Ok? ==> Yields(card.link, old(card.link.tick), r.value)
    ensures r.Ok? ==> card.usable && card.link.generation == lease
    ensures card.usable ==> card.Snap() == old(card.Snap())
    ensures card.usable <==> !r.Uncertain()
    ensures r.Ok? ==> AttemptAt(card.log, |old(card.log)|)
  {
    ghost var start := card.link.tick;
    var records := [];
    for index := 0 to MAX_DF_FRAMES
      invariant card.Valid() && card.Snap() == old(card.Snap()) && card.Now().life == old(card.Now()).life
      invariant FramesIn(old(card.log), card.log, timeout, lease) && |card.log| == |old(card.log)| + index
      invariant index > 0 ==> AttemptAt(card.log, |old(card.log)|)
      invariant card.link.seen == card.generation && card.link.generation == lease
      invariant card.link.tick == start + 3 * index && Following(card.link, start, index, records)
    {
      ghost var before := card.log;
      var frame, next := ReadRecord(card, lease, start, index, records, timeout);
      FramesNext(old(card.log), before, card.log, index, timeout, lease);
      if frame.Err? || frame.value.status == 0x00 {
        r := FinishFrames(card, frame, next, start, index, records);
        return;
      }
      records := next;
    }
    DoesNotComplete(card.link, start, MAX_DF_FRAMES, records);
    card.InvalidateLocked();
    r := Err(Error(MalformedResponse, Unknown));
  }

  /** A frame that ends the enumeration early: not answered, rejected, or of a form no frame may have. */
  method AbandonFrames(card: Card, answer: Answer) returns (e: Error)
    requires card.Valid()
    requires answer.Answered? ==> !ValidDfFrame(answer.payload) || answer.payload.status !in {0x00, 0xAF}
    modifies card
    ensures card.Valid() && card.generation == old(card.generation)
    ensures card.log == old(card.log) || card.log == old(card.log) + [Invalidated]
    ensures card.usable <==> old(card.usable) && !e.outcome.Unknown?
    ensures card.usable ==> card.Snap() == old(card.Snap())
    ensures e == if answer.Answered? then
                   if answer.payload.status in {0x00, 0xAF} then Error(MalformedResponse, Unknown)
                   else Error(CardRejected, Rejected)
                 else FailureFor(answer)
  {
    match answer
    case Threw =>
      card.InvalidateLocked();
      e := Error(Internal, Unknown);
    case Failed(error) =>
      if error.outcome.Unknown? {
        card.InvalidateLocked();
      }
      e := error;
    case Answered(frame) =>
      if frame.status != 0x00 && frame.status != 0xAF {
        return Error(CardRejected, Rejected);
      }
      card.InvalidateLocked();
      e := Error(MalformedResponse, Unknown);
  }

  /** The enumeration ends here: with an error, or with a last frame. */
  method FinishFrames(card: Card, frame: Result<Payload>, records: seq<seq<nat>>, ghost start: nat, ghost index: nat,
                      ghost carried: seq<seq<nat>>)
    returns (r: Result<seq<seq<nat>>>)
    requires card.Valid() && index < MAX_DF_FRAMES
    requires frame.Err? ==> !Completes(card.link, start) && (frame.Uncertain() ==> !card.usable)
    requires frame.Ok? ==> frame.value.status == 0x00 && frame.value == FrameAt(card.link, start, index)
    requires frame.Ok? ==> GoodFrame(card.link, start, index) && records == Records(card.link, start, index + 1)
    requires frame.Ok? ==> Following(card.link, start, index, carried)
    modifies card
    ensures card.Valid() && card.generation == old(card.generation)
    ensures card.log == old(card.log) || card.log == old(card.log) + [Invalidated]
    ensures r.Ok? <==> Completes(card.link, start)
    ensures r.Ok? ==> frame.Ok? && Yields(card.link, start, r.value)
    ensures card.usable ==> card.Snap() == old(card.Snap())
    ensures frame.Err? ==> r == Err(frame.error) && card.usable == old(card.usable)
    ensures frame.Ok? ==> (card.usable <==> old(card.usable) && !r.Uncertain())
  {
    if frame.Err? {
      return Err(frame.error);
    }
    r := DecodeRecords(card, records, start, index, carried);
  }

  /** After the last frame, which ends the enumeration well exactly if every record decodes. */
  method DecodeRecords(card: Card, records: seq<seq<nat>>, ghost start: nat, ghost index: nat,
                       ghost carried: seq<seq<nat>>)
    returns (r: Result<seq<seq<nat>>>)
    requires card.Valid() && index < MAX_DF_FRAMES && records == Records(card.link, start, index + 1)
    requires Following(card.link, start, index, carried)
    requires GoodFrame(card.link, start, index) && FrameAt(card.link, start, index).status == 0x00
    modifies card
    ensures card.Valid() && card.generation == old(card.generation)
    ensures card.log == old(card.log) || card.log == old(card.log) + [Invalidated]
    ensures r.Ok? <==> Completes(card.link, start)
    ensures if r.Ok? then Yields(card.link, start, r.value) && card.Snap() == old(card.Snap())
            else r.Uncertain() && !card.usable
  {
    if exists i :: 0 <= i < |records| && !DecodesAsDfName(records[i]) {
      DoesNotComplete(card.link, start, index, carried);
      card.InvalidateLocked();
      return Err(Error(MalformedResponse, Unknown));
    }
    assert Complete(card.link, start, index + 1);
    RecordsAreInOrder(card.link, start, index + 1);
    r := Ok(records);
  }

  const SOME_NAME: seq<nat> := [1, 0, 0, 0x10, 0xE1]

  /** A change reported while the lease is opened: a name of generation two is returned for generation one. */
  method LateLeaseWitness() returns (captured: nat, ghost lease: nat, names: Result<seq<seq<nat>>>, usable: bool)
    ensures captured == 1 && lease == 2 && names == Ok([SOME_NAME]) && usable
  {
    var script := (n: nat) =>
      if n == 1 then QUIET.(bump := 1)
      else if n == 3 then QUIET.(answer := Answered(BLANK.(bytes := SOME_NAME)))
      else QUIET;
    var link := new Reader(script, map[], Picc([], []), true);
    var card := new Card(link);
    assert FrameAt(link, 2, 0) == PayloadAt(link, 3) == BLANK.(bytes := SOME_NAME);
    assert Records(link, 2, 1) == Records(link, 2, 0) + [SOME_NAME] == [SOME_NAME];
    assert GoodFrame(link, 2, 0) && Complete(link, 2, 1);
    names, lease := DfNames(card, 1);
    assert Completes(link, 2) && Yields(link, 2, names.value);
    SingleFrame(link, 2, names.value);
    captured, usable := card.generation, card.usable;
  }
}
