/** Execution of one checked native command under managed state policy. */
module CardManagement {
  import opened Results
  import opened CardTrace
  import opened Reader
  import opened ManagedCard

  /** Opcodes whose successful response is decoded before it is handed out. */
  predicate DecodesResponse(opcode: nat, response: seq<nat>) {
    || opcode in {0x60, 0x6A, 0x61, 0x45, 0xF5, 0xF6, 0x6C, 0x51, 0x69, 0x3C}
    || (opcode == COMMIT && response != [])
  }

  /** Every state the card can be in when a command was or was not carried out. */
  predicate MayHaveLanded(files: Files, p: Picc, request: Request, q: Picc) {
    || q == p
    || q == p.Forget()
    || q == Effect(files, p, request)
    || q == Effect(files, p.Forget(), request)
    || q == Effect(files, p, request).Forget()
    || q == Effect(files, p.Forget(), request).Forget()
  }

  /** What an error says about the card: without `Unknown` or `Succeeded` nothing was done. */
  predicate Explains(files: Files, p: Picc, request: Request, outcome: Outcome, q: Picc) {
    && MayHaveLanded(files, p, request, q)
    && (outcome.NotSent? || outcome.Rejected? ==> q == p || q == p.Forget())
  }

  /** Entries a failed command may leave: its attempt, then the invalidation it caused. */
  predicate FailureEntries(before: Log, after: Log, request: Request) {
    || after == before
    || after == before + [Invalidated]
    || (|after| == |before| + 1 && before <= after && after[|before|].Attempt? && after[|before|].request == request)
    || (|after| == |before| + 2 && before <= after && after[|before|].Attempt? && after[|before|].request == request &&
        after[|before| + 1].Invalidated?)
  }

  /** Why a command is refused, first reason first; what is admitted, only a counter that is used up refuses. */
  ghost function RefusalCode(card: Card, command: Command): ErrorCode
    reads card, card.link
  {
    if !card.usable || card.authenticationResetPending then SessionInvalid
    else if !command.valid || command.opcode == 0x6D then InvalidArgument
    else if card.link.generation + card.link.script(card.link.tick).bump != card.generation then CardRemoved
    else if card.isoSession.Some? then SessionInvalid
    else if (|| (command.requiresAuthentication && !card.HasNativeSession())
             || (command.requiresEv2Session && card.ev2Session.None?)
             || (command.requiresPiccSelection && card.selectedApplication != Some(0))
             || (command.currentAuthenticatedKey.Some? && command.currentAuthenticatedKey != card.authenticatedKey)
             || (command.allowedKeys != {} &&
                 (card.authenticatedKey.None? || card.authenticatedKey.value !in command.allowedKeys))) then
      Authentication
    else CounterExhausted
  }

  /** The state and authority checks made before any channel call. */
  method AdmitCommand(card: Card, command: Command) returns (refusal: Option<Error>)
    requires card.Valid()
    modifies card, card.link
    ensures card.Valid() && card.generation == old(card.generation)
    ensures card.link.generation >= old(card.link.generation) && card.link.now == old(card.link.now)
    ensures card.link.heard == old(card.link.heard) && card.link.idle == old(card.link.idle)
    ensures Drifts(old(card.link.picc), card.link.generation > old(card.link.generation), card.link.picc)
    ensures refusal.None? ==>
              card.log == old(card.log) && card.Snap() == old(card.Snap()) && card.Now() == old(card.Now())
    ensures refusal.None? ==> card.link.generation == card.link.seen == card.generation
    ensures refusal.None? ==> card.link.picc == old(card.link.picc)
    ensures refusal.None? ==> card.link.tick == old(card.link.tick) + 1
    // A command is admitted exactly when it passes every gate and the captured generation is still reported.
    ensures refusal.None? <==>
            && Gates(old(card.Now().life), command)
            && old(card.link.generation) + card.link.script(old(card.link.tick)).bump == card.generation
    ensures refusal.None? <==> old(RefusalCode(card, command)) == CounterExhausted
    ensures refusal.Some? ==> refusal.value == Error(old(RefusalCode(card, command)))
    // A refusal changes nothing, unless it found the card changed.
    ensures refusal.Some? ==>
              if refusal.value.code == CardRemoved then card.log == old(card.log) + [Invalidated] && !card.usable
              else card.log == old(card.log) && card.Snap() == old(card.Snap())
  {
    card.StateIsSound();
    if !card.usable {
      return Some(Error(SessionInvalid));
    }
    if card.authenticationResetPending {
      return Some(Error(SessionInvalid));
    }
    if !command.valid {
      return Some(Error(InvalidArgument));
    }
    if command.opcode == GET_DF_NAMES {
      return Some(Error(InvalidArgument));
    }
    var observed := card.link.Look();
    if observed != card.generation {
      card.InvalidateLocked();
      return Some(Error(CardRemoved));
    }
    if card.isoSession.Some? {
      return Some(Error(SessionInvalid));
    }
    if !card.HasNativeSession() && command.requiresAuthentication {
      return Some(Error(Authentication));
    }
    if command.requiresEv2Session && card.ev2Session.None? {
      return Some(Error(Authentication));
    }
    if command.requiresPiccSelection && (card.selectedApplication.None? || card.selectedApplication.value != 0) {
      return Some(Error(Authentication));
    }
    if command.currentAuthenticatedKey.Some? && command.currentAuthenticatedKey != card.authenticatedKey {
      return Some(Error(Authentication));
    }
    if command.allowedKeys != {} &&
       (card.authenticatedKey.None? || card.authenticatedKey.value !in command.allowedKeys) {
      return Some(Error(Authentication));
    }
    return None;
  }

  /**
   Hand an admitted command to the channel under whatever native session is active. An EV2
   session counts the command when it is prepared and refuses once its counter is used up.
   */
  method ExchangeProtected(card: Card, command: Command, timeout: int) returns (answer: Answer)
    requires card.Valid() && card.link.seen == card.generation && card.usable
    requires Gates(card.Now().life, command)
    modifies card, card.link
    ensures card.Valid() && card.generation == old(card.generation) && card.usable
    ensures card.link.generation >= old(card.link.generation) && card.link.now >= old(card.link.now)
    ensures card.link.idle == old(card.link.idle)
    ensures !old(card.HasNativeSession()) ==> card.Snap() == old(card.Snap())
    ensures
      if old(card.ev2Session.Some? && card.ev2Session.value.counter == MAX_COUNTER) then
        && answer == Failed(Error(CounterExhausted))
        && card.log == old(card.log) && card.link.heard == old(card.link.heard)
        && card.link.picc == old(card.link.picc) && card.link.now == old(card.link.now)
      else
        var t := old(card.link.tick);
        var lease := old(card.link.generation) + card.link.script(t).bump;
        var e := Handed(card, command, lease, old(card.link.now), timeout);
        && Permits(old(card.Now().life), command)
        && card.log == old(card.log) + [e] && card.link.heard == old(card.link.heard) + [e]
        && card.link.tick == t + 2 && card.link.now == old(card.link.now) + card.link.script(t + 1).elapsed
        && card.link.generation == lease + card.link.script(t + 1).bump
        && (answer.Answered? <==> card.link.script(t + 1).answer.Answered?)
        && (!answer.Answered? ==> answer == card.link.script(t + 1).answer)
        && (answer.Answered? ==> SamePayload(answer.payload, card.link.script(t + 1).answer.payload))
        && card.Now() == Advance(old(card.Now()), e)
        && Becomes(card.link.files, old(card.link.picc), card.link.generation > old(card.link.generation),
                   Native(command), answer, card.link.picc)
    ensures answer.Answered? && QueriesSettings(Native(command)) ==>
              answer.payload.settings == SettingsOf(card.link.files, command.header[0])
  {
    card.StateIsSound();
    if card.ev2Session.Some? && card.ev2Session.value.counter == MAX_COUNTER {
      return Failed(Error(CounterExhausted));
    }
    answer := SendProtected(card, command, timeout);
  }

  /** Hand over a permitted command; an EV2 session counts it. */
  method SendProtected(card: Card, command: Command, timeout: int) returns (answer: Answer)
    requires card.Valid() && card.link.seen == card.generation && Permits(card.Now().life, command)
    modifies card, card.link
    ensures card.Valid() && card.generation == old(card.generation) && card.usable
    ensures card.link.idle == old(card.link.idle)
    ensures !old(card.HasNativeSession()) ==> card.Snap() == old(card.Snap())
    ensures var t := old(card.link.tick);
            var lease := old(card.link.generation) + card.link.script(t).bump;
            var e := Handed(card, command, lease, old(card.link.now), timeout);
            && card.log == old(card.log) + [e] && card.link.heard == old(card.link.heard) + [e]
            && card.Now() == Advance(old(card.Now()), e)
            && card.link.tick == t + 2 && card.link.now == old(card.link.now) + card.link.script(t + 1).elapsed
            && card.link.generation == lease + card.link.script(t + 1).bump
            && (answer.Answered? <==> card.link.script(t + 1).answer.Answered?)
            && (!answer.Answered? ==> answer == card.link.script(t + 1).answer)
            && (answer.Answered? ==> SamePayload(answer.payload, card.link.script(t + 1).answer.payload))
    ensures Becomes(card.link.files, old(card.link.picc), card.link.generation > old(card.link.generation),
                    Native(command), answer, card.link.picc)
    ensures answer.Answered? && QueriesSettings(Native(command)) ==>
              answer.payload.settings == SettingsOf(card.link.files, command.header[0])
  {
    if card.ev2Session.Some? {
      card.ev2Session := Some(card.ev2Session.value.(counter := card.ev2Session.value.counter + 1));
    }
    answer := card.Send(Native(command), timeout);
  }

  /** What an exchange without a counting answer comes to. */
  function FailureFor(answer: Answer): Error {
    match answer
    case Failed(error) => error
    case Threw => Error(Internal, Unknown)
    case Answered(_) => Error(CardRemoved, Unknown)
  }

  /** An answer counts only when the captured generation is still the reported one; protected failures kill the card. */
  method Conclude(card: Card, answer: Answer, protectedSession: bool) returns (r: Result<Payload>)
    requires card.Valid() && card.usable
    modifies card, card.link
    ensures card.Valid() && card.generation == old(card.generation)
    ensures card.link.generation >= old(card.link.generation) && card.link.now == old(card.link.now)
    ensures card.link.heard == old(card.link.heard) && card.link.idle == old(card.link.idle)
    ensures Drifts(old(card.link.picc), card.link.generation > old(card.link.generation), card.link.picc)
    ensures card.log == old(card.log) || card.log == old(card.log) + [Invalidated]
    ensures card.usable <==> card.log == old(card.log)
    ensures card.usable ==> card.Snap() == old(card.Snap()) && card.Now() == old(card.Now())
    ensures r.Ok? <==> && answer.Answered?
                       && old(card.link.generation) + card.link.script(old(card.link.tick)).bump == card.generation
    ensures r.Ok? ==> r.value == answer.payload && card.usable && card.link.generation == card.generation
    ensures r.Ok? ==> card.link.tick == old(card.link.tick) + 1
    ensures r.Err? ==> r.error == FailureFor(answer) && (!answer.Answered? ==> card.link.picc == old(card.link.picc))
    ensures r.Err? ==> (card.usable <==> !protectedSession && !r.error.outcome.Unknown?)
  {
    match answer
    case Threw =>
      card.InvalidateLocked();
      r := Err(Error(Internal, Unknown));
    case Failed(error) =>
      if protectedSession || error.outcome.Unknown? {
        card.InvalidateLocked();
      }
      r := Err(error);
    case Answered(payload) =>
      var observed := card.link.Look();
      if observed != card.generation {
        card.InvalidateLocked();
        return Err(Error(CardRemoved, Unknown));
      }
      r := Ok(payload);
  }

  /** The command as handed over at `at` under this lease, with an exchange that ended just now. */
  ghost function Handed(card: Card, command: Command, lease: nat, at: nat, timeout: int): Entry
    reads card, card.link
  {
    Attempt(Native(command), card.generation, lease, at, timeout, card.link.now)
  }

  /** The state after the command was handed over in the captured generation. */
  ghost function After(card: Card, command: Command, before: State, at: nat, timeout: int): State
    reads card, card.link
  {
    Advance(before, Handed(card, command, card.generation, at, timeout))
  }

  /** Either the command has departed, as the last thing heard, or nothing was heard and no time passed. */
  ghost predicate Heeded(card: Card, departed: bool, e: Entry, heard: Log, at: nat)
    reads card, card.link
  {
    if departed then card.link.heard == heard + [e] else card.link.heard == heard && card.link.now == at
  }

  /** Exactly when a command is handed over: gates, a counter value, and the captured generation at the look. */
  ghost predicate Departs(card: Card, command: Command)
    reads card, card.link
  {
    && Permits(card.Now().life, command)
    && card.link.generation + card.link.script(card.link.tick).bump == card.generation
  }

  /** A refusal spares a usable card, unless it found the card changed or the counter of its session used up. */
  predicate Spares(usable: bool, native: bool, code: ErrorCode) {
    usable && code != CardRemoved && !(native && code == CounterExhausted)
  }

  /** Exactly when a command is delivered: gates, a counter value, and an answer with no card change around it. */
  ghost predicate Delivers(card: Card, command: Command)
    reads card, card.link
  {
    Departs(card, command) && Kept(card.link, card.link.tick + 1)
  }

  /** Admit, exchange and check the generation again; decoding is left to the caller. */
  method Deliver(card: Card, command: Command, timeout: int) returns (r: Result<Payload>)
    requires card.Valid()
    modifies card, card.link
    ensures card.Valid() && card.generation == old(card.generation)
    ensures card.link.generation >= old(card.link.generation) && card.link.now >= old(card.link.now)
    ensures r.Ok? <==> old(Delivers(card, command))
    ensures r.Ok? ==> card.link.tick == old(card.link.tick) + 4 &&
                      card.link.now == old(card.link.now) + card.link.script(old(card.link.tick) + 2).elapsed
    ensures r.Ok? ==> card.usable && SamePayload(r.value, card.link.script(old(card.link.tick) + 2).answer.payload)
    ensures r.Ok? ==> card.log == old(card.log) + [Handed(card, command, card.generation, old(card.link.now), timeout)]
    ensures r.Ok? ==> card.Now() == After(card, command, old(card.Now()), old(card.link.now), timeout)
    ensures r.Ok? ==> old(card.link.generation) == card.link.generation == card.generation
    ensures r.Ok? ==> card.link.picc == Effect(card.link.files, old(card.link.picc), Native(command))
    ensures r.Ok? && QueriesSettings(Native(command)) ==>
              r.value.settings == SettingsOf(card.link.files, command.header[0])
    ensures r.Err? ==> FailureEntries(old(card.log), card.log, Native(command))
    ensures r.Err? ==> !card.usable || card.Snap() == old(card.Snap())
    // Which error, and whether the card survives it.
    ensures r.Err? ==>
              r.error == if old(Departs(card, command)) then
                           FailureFor(card.link.script(old(card.link.tick) + 2).answer)
                         else Error(old(RefusalCode(card, command)))
    ensures r.Err? ==>
              (card.usable <==> if old(Departs(card, command)) then !old(card.HasNativeSession()) && !r.Uncertain()
                                else Spares(old(card.usable), old(card.HasNativeSession()), r.error.code))
    // The exact condition for a hand-over, which is in the captured generation exactly when no change was reported as
    // the lease was opened. What time passed is that of the exchange.
    ensures var lease := card.generation + card.link.script(old(card.link.tick) + 1).bump;
            Heeded(card, old(Departs(card, command)), Handed(card, command, lease, old(card.link.now), timeout),
                   old(card.link.heard), old(card.link.now))
    ensures card.link.idle == old(card.link.idle)
    ensures r.Err? ==> Explains(card.link.files, old(card.link.picc), Native(command), r.error.outcome, card.link.picc)
    ensures LeasedIn(old(card.log), card.log, Native(command), timeout,
                     card.generation + card.link.script(old(card.link.tick) + 1).bump)
  {
    var refusal := AdmitCommand(card, command);
    if refusal.Some? {
      return Err(refusal.value);
    }
    r := DeliverAdmitted(card, command, timeout);
  }

  /** Hand an admitted command over and let its answer count only in the captured generation. */
  method DeliverAdmitted(card: Card, command: Command, timeout: int) returns (r: Result<Payload>)
    requires card.Valid() && card.link.seen == card.link.generation == card.generation
    requires Gates(card.Now().life, command)
    modifies card, card.link
    ensures card.Valid() && card.generation == old(card.generation)
    ensures card.link.generation >= old(card.link.generation) && card.link.now >= old(card.link.now)
    ensures r.Ok? <==> Permits(old(card.Now().life), command) && Kept(card.link, old(card.link.tick))
    ensures r.Ok? ==> card.link.tick == old(card.link.tick) + 3 &&
                      card.link.now == old(card.link.now) + card.link.script(old(card.link.tick) + 1).elapsed
    ensures r.Ok? ==> card.usable && SamePayload(r.value, card.link.script(old(card.link.tick) + 1).answer.payload)
    ensures r.Ok? ==> card.log == old(card.log) + [Handed(card, command, card.generation, old(card.link.now), timeout)]
    ensures r.Ok? ==> card.link.generation == card.generation
    ensures r.Ok? ==> card.Now() == After(card, command, old(card.Now()), old(card.link.now), timeout)
    ensures r.Ok? ==> card.link.picc == Effect(card.link.files, old(card.link.picc), Native(command))
    ensures r.Ok? && QueriesSettings(Native(command)) ==>
              r.value.settings == SettingsOf(card.link.files, command.header[0])
    ensures r.Err? ==> FailureEntries(old(card.log), card.log, Native(command))
    ensures r.Err? ==> !card.usable || card.Snap() == old(card.Snap())
    ensures r.Err? ==>
              r.error == if Permits(old(card.Now().life), command) then
                           FailureFor(card.link.script(old(card.link.tick) + 1).answer)
                         else Error(CounterExhausted)
    ensures r.Err? ==> (card.usable <==> !old(card.HasNativeSession()) && !r.Uncertain())
    ensures var lease := card.generation + card.link.script(old(card.link.tick)).bump;
            Heeded(card, Permits(old(card.Now().life), command),
                   Handed(card, command, lease, old(card.link.now), timeout), old(card.link.heard), old(card.link.now))
    ensures card.link.idle == old(card.link.idle)
    ensures r.Err? ==> Explains(card.link.files, old(card.link.picc), Native(command), r.error.outcome, card.link.picc)
    ensures LeasedIn(old(card.log), card.log, Native(command), timeout,
                     card.generation + card.link.script(old(card.link.tick)).bump)
  {
    var protectedSession := card.HasNativeSession();
    var answer := ExchangeProtected(card, command, timeout);
    r := Conclude(card, answer, protectedSession);
  }

  /** From this tick on - a lease, an exchange, a look - the command is answered and no card change is reported. */
  predicate Kept(link: Reader, at: nat) {
    && link.script(at).bump == 0 && link.script(at + 1).bump == 0 && link.script(at + 2).bump == 0
    && link.script(at + 1).answer.Answered?
  }

  /** Hand-over in terms of the card's fields. */
  lemma DepartsMeans(card: Card, command: Command)
    requires card.Valid()
    ensures Departs(card, command) <==>
            && card.usable && !card.authenticationResetPending && card.isoSession.None?
            && command.valid && command.opcode != 0x6D
            && (command.requiresAuthentication ==> card.standardSession.Some? || card.ev2Session.Some?)
            && (command.requiresEv2Session ==> card.ev2Session.Some?)
            && (command.requiresPiccSelection ==> card.selectedApplication == Some(0))
            && (command.currentAuthenticatedKey.Some? ==> command.currentAuthenticatedKey == card.authenticatedKey)
            && (command.allowedKeys != {} ==>
                  card.authenticatedKey.Some? && card.authenticatedKey.value in command.allowedKeys)
            && (card.ev2Session.Some? ==> card.ev2Session.value.counter < 0xFFFF)
            && card.link.generation + card.link.script(card.link.tick).bump == card.generation
  {
    card.StateIsSound();
  }

  function AnswerOf(answer: Answer): Payload {
    if answer.Answered? then answer.payload else BLANK
  }

  function WithoutNative(s: Snapshot): Snapshot {
    s.(standardSession := None, ev2Session := None, authenticatedKey := None)
  }

  /** An EV2 session has counted one more command; nothing else has changed. */
  function Counted(s: Snapshot): Snapshot {
    s.(ev2Session := if s.ev2Session.None? then None
                     else Some(s.ev2Session.value.(counter := s.ev2Session.value.counter + 1)))
  }

  /** The answer has the form its opcode prescribes, where the managed layer decodes it. */
  predicate Readable(command: Command, answer: Answer) {
    answer.Answered? && (DecodesResponse(command.opcode, answer.payload.bytes) ==> answer.payload.decoding.Decoded?)
  }

  method ExecuteLocked(card: Card, command: Command, timeout: int) returns (r: Result<Payload>)
    requires card.Valid()
    modifies card, card.link
    ensures card.Valid() && card.generation == old(card.generation)
    ensures card.link.generation >= old(card.link.generation) && card.link.now >= old(card.link.now)
    // The command is handed over exactly when the fields of the card meet every demand of it.
    ensures |card.link.heard| > |old(card.link.heard)| <==>
            && old(card.usable) && !old(card.authenticationResetPending) && old(card.isoSession).None?
            && command.valid && command.opcode != 0x6D
            && (command.requiresAuthentication ==> old(card.standardSession).Some? || old(card.ev2Session).Some?)
            && (command.requiresEv2Session ==> old(card.ev2Session).Some?)
            && (command.requiresPiccSelection ==> old(card.selectedApplication) == Some(0))
            && (command.currentAuthenticatedKey.Some? ==> command.currentAuthenticatedKey == old(card.authenticatedKey))
            && (command.allowedKeys != {} ==>
                  old(card.authenticatedKey).Some? && old(card.authenticatedKey).value in command.allowedKeys)
            && (old(card.ev2Session).Some? ==> old(card.ev2Session).value.counter < 0xFFFF)
            && old(card.link.generation) + card.link.script(old(card.link.tick)).bump == card.generation
    // Success has one exact condition; then this command went out inside the captured generation and took effect.
    ensures r.Ok? ==> card.link.tick == old(card.link.tick) + 4 &&
                      card.link.now == old(card.link.now) + card.link.script(old(card.link.tick) + 2).elapsed
    ensures r.Ok? <==> && old(Delivers(card, command))
                       && Readable(command, card.link.script(old(card.link.tick) + 2).answer)
    ensures r.Ok? ==> card.usable && SamePayload(r.value, card.link.script(old(card.link.tick) + 2).answer.payload)
    ensures r.Ok? ==> card.log == old(card.log)
                                  + [Handed(card, command, card.generation, old(card.link.now), timeout)]
                                  + (if command.invalidatesSession then [SessionEnded] else [])
    ensures r.Ok? && !command.invalidatesSession ==>
              card.Now() == After(card, command, old(card.Now()), old(card.link.now), timeout)
    ensures r.Ok? ==> old(card.link.generation) == card.link.generation == card.generation
    ensures r.Ok? ==> card.link.picc == Effect(card.link.files, old(card.link.picc), Native(command))
    ensures r.Ok? && QueriesSettings(Native(command)) ==>
              r.value.decoding.Decoded? && r.value.settings == SettingsOf(card.link.files, command.header[0])
    ensures r.Ok? ==> card.Snap() == if command.invalidatesSession then WithoutNative(old(card.Snap()))
                                     else Counted(old(card.Snap()))
    // Failure: the card is as it was, or it is dead; it is dead after uncertainty and whenever a
    // session protected the command.
    ensures r.Err? ==> FailureEntries(old(card.log), card.log, Native(command))
    ensures r.Err? ==> !card.usable || card.Snap() == old(card.Snap())
    ensures r.Uncertain() ==> !card.usable
    ensures r.Err? && !old(Delivers(card, command)) ==>
              r.error == if old(Departs(card, command)) then
                           FailureFor(card.link.script(old(card.link.tick) + 2).answer)
                         else Error(old(RefusalCode(card, command)))
    ensures r.Err? && old(Delivers(card, command)) ==>
              !card.usable && r.error == card.link.script(old(card.link.tick) + 2).answer.payload.decoding.Failure()
    ensures r.Err? && !old(Delivers(card, command)) ==>
              (card.usable <==> if old(Departs(card, command)) then !old(card.HasNativeSession()) && !r.Uncertain()
                                else Spares(old(card.usable), old(card.HasNativeSession()), r.error.code))
    // The exact condition for a hand-over, which is in the captured generation exactly when no change was reported as
    // the lease was opened. What time passed is that of the exchange.
    ensures var lease := card.generation + card.link.script(old(card.link.tick) + 1).bump;
            Heeded(card, old(Departs(card, command)), Handed(card, command, lease, old(card.link.now), timeout),
                   old(card.link.heard), old(card.link.now))
    ensures card.link.idle == old(card.link.idle)
    ensures r.Err? ==> Explains(card.link.files, old(card.link.picc), Native(command), r.error.outcome, card.link.picc)
    ensures LeasedIn(old(card.log), card.log, Native(command), timeout,
                     card.generation + card.link.script(old(card.link.tick) + 1).bump)
    ensures r.Ok? ==> AttemptAt(card.log, |old(card.log)|)
  {
    DepartsMeans(card, command);
    r := Deliver(card, command, timeout);
    if r.Err? {
      return;
    }
    r := Accept(card, command, r.value);
  }

  /** A delivered answer is decoded where its opcode says so, and may end the session. */
  method Accept(card: Card, command: Command, payload: Payload) returns (r: Result<Payload>)
    requires card.Valid() && card.usable && card.isoSession.None?
    requires command.invalidatesSession ==> EntryOk(card.Now(), SessionEnded)
    modifies card
    ensures card.Valid() && card.generation == old(card.generation)
    ensures r == if Readable(command, Answered(payload)) then Ok(payload) else Err(payload.decoding.Failure())
    ensures r.Ok? <==> ((|| command.opcode in {0x60, 0x6A, 0x61, 0x45, 0xF5, 0xF6, 0x6C, 0x51, 0x69, 0x3C}
                         || (command.opcode == 0xC7 && payload.bytes != [])) ==> payload.decoding.Decoded?)
    ensures card.log == old(card.log) +
                        (if r.Err? then [Invalidated] else if command.invalidatesSession then [SessionEnded] else [])
    ensures r.Err? ==> !card.usable
    ensures r.Ok? ==>
              card.Snap() == if command.invalidatesSession then WithoutNative(old(card.Snap())) else old(card.Snap())
    ensures r.Ok? && !command.invalidatesSession ==> card.Now() == old(card.Now())
  {
    if DecodesResponse(command.opcode, payload.bytes) && !payload.decoding.Decoded? {
      card.InvalidateLocked();
      return Err(payload.decoding.Failure());
    }
    if command.invalidatesSession {
      EndSession(card);
    }
    r := Ok(payload);
  }

  /** A command that ends authentication on the card ends it here too. */
  method EndSession(card: Card)
    requires card.Valid() && EntryOk(card.Now(), SessionEnded) && card.isoSession.None?
    modifies card
    ensures card.Valid() && card.log == old(card.log) + [SessionEnded]
    ensures card.Snap() == WithoutNative(old(card.Snap()))
  {
    card.ClearNativeSession();
    card.authenticatedKey := None;
    card.Record(SessionEnded);
  }
}
