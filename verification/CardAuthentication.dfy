/** Standard AES, EV2 and ISO AES authentication with direct, derived and provided keys. */
module CardAuthentication {
  import opened Results
  import opened CardTrace
  import opened Reader
  import opened ManagedCard
  import opened CardManagement

  datatype Purpose = AuthenticationPurpose | OtherPurpose
  datatype Scope = NativeScope | IsoPicc | IsoApplication
  datatype Profile = StandardProfile | Ev2FirstProfile | Ev2NonFirstProfile | IsoAesProfile
  datatype Context = Context(purpose: Purpose, keyNumber: nat)
  datatype KeyRequest = KeyRequest(context: Context, scope: Scope, profile: Profile)
  datatype AesKey = AesKey(valid: bool, secret: nat)

  /** What application code does when asked for a key. */
  datatype KeyAnswer = Gave(key: AesKey) | Declined(code: ErrorCode) | Raised

  datatype KeySource =
    | Direct(keyNumber: nat, key: AesKey)
    | Derive(master: AesKey, context: Context, answer: KeyAnswer)
    | Provide(request: KeyRequest, answer: KeyAnswer)
  {
    function KeyNumber(): nat {
      match this
      case Direct(n, _) => n
      case Derive(_, context, _) => context.keyNumber
      case Provide(request, _) => request.context.keyNumber
    }
  }

  /** The key a source comes to, if it comes to one. */
  function KeyFrom(source: KeySource): AesKey {
    if source.Direct? then source.key
    else if source.answer.Gave? then source.answer.key
    else AesKey(false, 0)
  }

  /** The handshake a source gives rise to. */
  function Handshake(family: Family, source: KeySource, capabilities: nat): Request {
    Authenticate(family, source.KeyNumber(), KeyFrom(source).secret, capabilities)
  }

  function ProfileOf(family: Family): Profile {
    match family
    case StandardFamily => StandardProfile
    case Ev2First => Ev2FirstProfile
    case Ev2NonFirst => Ev2NonFirstProfile
  }

  /** Reference zero is the PICC master key; others carry the key number in their low nibble. */
  function IsoKeyNumber(reference: nat): nat {
    if reference == 0 then 0 else reference % 16
  }

  predicate ValidNativeSource(source: KeySource, family: Family) {
    match source
    case Direct(_, _) => true
    case Derive(_, context, _) => context.purpose.AuthenticationPurpose?
    case Provide(request, _) =>
      && request.context.purpose.AuthenticationPurpose?
      && request.profile == ProfileOf(family)
      && request.scope.NativeScope?
  }

  predicate ValidIsoSource(source: KeySource, reference: nat) {
    match source
    case Direct(_, _) => true
    case Derive(_, context, _) =>
      context.purpose.AuthenticationPurpose? && context.keyNumber == IsoKeyNumber(reference)
    case Provide(request, _) =>
      && request.context.purpose.AuthenticationPurpose?
      && request.profile.IsoAesProfile?
      && request.scope == (if reference == 0 then IsoPicc else IsoApplication)
      && request.context.keyNumber == IsoKeyNumber(reference)
  }

  /** Which key sources the three native families and the ISO references accept. */
  lemma AcceptedSources(source: KeySource, family: Family, reference: nat)
    ensures ValidNativeSource(source, family) <==>
            || source.Direct?
            || (source.Derive? && source.context.purpose.AuthenticationPurpose?)
            || (&& source.Provide? && source.request.context.purpose.AuthenticationPurpose?
                && source.request.scope.NativeScope?
                && source.request.profile == if family.StandardFamily? then StandardProfile
                                             else if family.Ev2First? then Ev2FirstProfile else Ev2NonFirstProfile)
    ensures var number := if reference == 0 then 0 else reference % 16;
            ValidIsoSource(source, reference) <==>
              || source.Direct?
              || (&& source.Derive? && source.context.purpose.AuthenticationPurpose?
                  && source.context.keyNumber == number)
              || (&& source.Provide? && source.request.context.purpose.AuthenticationPurpose?
                  && source.request.profile.IsoAesProfile? && source.request.context.keyNumber == number
                  && source.request.scope == if reference == 0 then IsoPicc else IsoApplication)
  {
  }

  /** `after` extends `before` by an attempt of `request`, perhaps with its verdict, or not at all. */
  predicate OneAttempt(before: Log, after: Log, request: Request) {
    || after == before
    || (before < after && |after| <= |before| + 2 && after[|before|].Attempt? && after[|before|].request == request &&
        (|after| == |before| + 2 ==> after[|before| + 1].Invalidated? || after[|before| + 1].Authenticated?))
  }

  /** The generation of the lease of an authentication that obtains its key from this tick on. */
  function LeaseAfter(source: KeySource, link: Reader, tick: nat, generation: nat): nat {
    if source.Direct? then generation + link.script(tick).bump
    else generation + link.script(tick + 1).bump + link.script(tick + 3).bump
  }

  /** At most one key call, made before the one attempt there may be. */
  predicate OneAuthentication(before: Log, after: Log, request: Request) {
    || after == before + [Invalidated]
    || OneAttempt(before, after, request)
    || OneAttempt(before + [KeyCall], after, request)
  }

  /** Why an authentication is refused before it has a key, first reason first. */
  function PreflightCode(card: Card, requireEv2Session: bool, timeout: int): ErrorCode
    reads card, card.link
  {
    if timeout <= 0 then InvalidArgument
    else if card.link.script(card.link.tick).stop then Cancelled
    else if !card.usable || (requireEv2Session && card.ev2Session.None?) then SessionInvalid
    else CardRemoved
  }

  method Preflight(card: Card, requireEv2Session: bool, timeout: int) returns (refusal: Option<Error>)
    requires card.Valid()
    modifies card, card.link
    ensures card.Valid() && card.generation == old(card.generation)
    ensures card.link.generation >= old(card.link.generation)
    ensures refusal.None? ==> card.log == old(card.log) && card.Snap() == old(card.Snap()) && card.usable
    ensures refusal.None? ==> card.Now() == old(card.Now())
    ensures refusal.None? ==> card.link.seen == card.link.generation == card.generation
    ensures refusal.None? <==>
            && timeout > 0 && !card.link.script(old(card.link.tick)).stop
            && old(card.usable) && (requireEv2Session ==> old(card.ev2Session).Some?)
            && old(card.link.generation) + card.link.script(old(card.link.tick) + 1).bump == card.generation
    ensures refusal.Some? ==> refusal.value == Error(old(PreflightCode(card, requireEv2Session, timeout)))
    // A refusal changes nothing, unless it found the card changed.
    ensures refusal.Some? ==>
              if refusal.value.code == CardRemoved then
                card.log == old(card.log) + [Invalidated] && !card.usable && card.link.generation != card.generation
              else card.log == old(card.log) && card.Snap() == old(card.Snap())
    ensures refusal.None? ==> card.link.tick == old(card.link.tick) + 2
  {
    if timeout <= 0 {
      return Some(Error(InvalidArgument));
    }
    var _, stop := card.link.ReadClock();
    if stop {
      return Some(Error(Cancelled));
    }
    if !card.usable {
      return Some(Error(SessionInvalid));
    }
    if requireEv2Session && card.ev2Session.None? {
      return Some(Error(SessionInvalid));
    }
    var observed := card.link.Look();
    if observed != card.generation {
      card.InvalidateLocked();
      return Some(Error(CardRemoved));
    }
    return None;
  }

  /** Exactly when the key is available: directly, or from a willing source with no cancellation around the call. */
  predicate Resolves(source: KeySource, link: Reader, tick: nat) {
    || (source.Direct? && source.key.valid)
    || (&& !source.Direct? && (source.Derive? ==> source.master.valid) && source.answer.Gave? && source.answer.key.valid
        && !link.script(tick).stop && !link.script(tick + 2).stop)
  }

  /** Exactly when application code is called. */
  predicate Asks(source: KeySource, link: Reader, tick: nat) {
    !source.Direct? && (source.Derive? ==> source.master.valid) && !link.script(tick).stop
  }

  /** Exactly when an authentication begun at this tick passes its preflight. */
  predicate Clears(link: Reader, tick: nat, timeout: int) {
    timeout > 0 && !link.script(tick).stop && link.script(tick + 1).bump == 0
  }

  /** Call a deriver or provider at most once; every failure is local and proves nothing was sent. */
  method ResolveOnce(card: Card, source: KeySource) returns (r: Result<AesKey>)
    requires card.Valid() && card.usable
    modifies card, card.link
    ensures card.Valid() && card.Snap() == old(card.Snap()) && card.Now().life == old(card.Now()).life
    ensures card.link.seen == old(card.link.seen)
    // The card may change while application code runs.
    ensures card.link.generation == old(card.link.generation) +
                                    (if Asks(source, card.link, old(card.link.tick)) then
                                       card.link.script(old(card.link.tick) + 1).bump
                                     else 0)
    ensures card.log == old(card.log) || card.log == old(card.log) + [KeyCall]
    ensures source.Direct? ==> r == Ok(source.key) && card.log == old(card.log)
    ensures r.Err? ==> r.error == NoKey(source, card.link, old(card.link.tick))
    ensures r.Ok? ==> r.value == KeyFrom(source)
    ensures !source.Direct? ==>
              (r.Ok? <==> && (source.Derive? ==> source.master.valid) && source.answer.Gave? && source.answer.key.valid
                          && !card.link.script(old(card.link.tick)).stop
                          && !card.link.script(old(card.link.tick) + 2).stop)
    ensures card.log == old(card.log) + [KeyCall] <==> Asks(source, card.link, old(card.link.tick))
    ensures r.Ok? ==> card.link.tick == old(card.link.tick) + (if source.Direct? then 0 else 3)
  {
    if source.Direct? {
      return Ok(source.key);
    }
    if source.Derive? && !source.master.valid {
      return Err(Error(InvalidArgument));
    }
    var _, stopBefore := card.link.ReadClock();
    if stopBefore {
      return Err(Error(Cancelled));
    }
    var answer := card.AskKey(source.answer);
    r := AcceptKey(card.link, answer);
  }

  /** Why what application code did is no key; never evidence that anything was sent. */
  function KeyFailure(answer: KeyAnswer, stop: bool): (e: Error)
    ensures e.outcome.NotSent?
  {
    match answer
    case Raised => Error(Internal)
    case Declined(code) => Error(code)
    case Gave(_) => Error(if stop then Cancelled else Crypto)
  }

  /** Why a source whose resolution begins at this tick comes to no key. */
  function NoKey(source: KeySource, link: Reader, tick: nat): Error {
    if source.Direct? || (source.Derive? && !source.master.valid) then Error(InvalidArgument)
    else if link.script(tick).stop then Error(Cancelled)
    else KeyFailure(source.answer, link.script(tick + 2).stop)
  }

  /** Why a handshake with this key source, begun at this tick in the captured generation, is not answered. */
  function NoHandshake(source: KeySource, link: Reader, tick: nat): Error {
    if !Resolves(source, link, tick) then NoKey(source, link, tick)
    else FailureFor(link.script(tick + (if source.Direct? then 1 else 4)).answer)
  }

  /** Why a native authentication whose key is obtained from this tick on does not succeed. */
  function NoNativeSession(source: KeySource, capabilities: nat, link: Reader, tick: nat): Error {
    var at := tick + (if source.Direct? then 0 else 3);
    if Resolves(source, link, tick) && capabilities > 6 then Error(InvalidArgument)
    else if (&& Resolves(source, link, tick) && Answers(link, at)
             && (!source.Direct? ==> link.script(tick + 1).bump == 0)) then Error(InvalidArgument, Unknown)
    else NoHandshake(source, link, tick)
  }

  /** What application code answered becomes a key only if it is one and no stop was requested meanwhile. */
  method AcceptKey(link: Reader, answer: KeyAnswer) returns (r: Result<AesKey>)
    modifies link`tick, link`now, link`idle
    ensures r.Ok? <==> answer.Gave? && answer.key.valid && !link.script(old(link.tick)).stop
    ensures r.Ok? ==> r.value == answer.key && link.tick == old(link.tick) + 1
    ensures r.Err? ==> r.error == KeyFailure(answer, link.script(old(link.tick)).stop)
  {
    match answer
    case Raised => r := Err(Error(Internal));
    case Declined(code) => r := Err(Error(code));
    case Gave(key) =>
      var _, stopAfter := link.ReadClock();
      if stopAfter {
        return Err(Error(Cancelled));
      }
      if !key.valid {
        return Err(Error(Crypto));
      }
      r := Ok(key);
  }

  /** From the opening of its lease the handshake is answered, with no card change up to the look that follows. */
  predicate Answers(link: Reader, tick: nat) {
    && link.script(tick + 1).answer.Answered?
    && link.script(tick).bump == 0 && link.script(tick + 1).bump == 0 && link.script(tick + 2).bump == 0
  }

  /**
   The frames of one authentication, with sessions already moved out as needed. Only a failure
   that proves nothing was sent lets the caller go on with the card.
   */
  method RunHandshake(card: Card, request: Request, timeout: int) returns (r: Result<Payload>)
    requires card.Tracked() && card.Now().life.Live? && Admissible(card.Now().life, request)
    requires request.Authenticate? || request.AuthenticateIso?
    requires card.link.seen == card.generation
    modifies card, card.link
    ensures card.Tracked() && card.generation == old(card.generation)
    ensures card.link.generation >= old(card.link.generation)
    ensures r.Ok? ==> card.link.generation == card.generation && card.link.tick == old(card.link.tick) + 3
    ensures r.Ok? <==> Answers(card.link, old(card.link.tick)) && old(card.link.generation) == card.generation
    ensures r.Ok? ==> Answered(r.value) == card.link.script(old(card.link.tick) + 1).answer
    ensures r.Ok? || r.error.outcome.NotSent? ==>
              && card.Snap() == old(card.Snap())
              && card.Now() == old(card.Now()).(inFlight := Some(request), latest := card.Now().latest)
              && |card.log| == |old(card.log)| + 1
    ensures r.Err? && !r.error.outcome.NotSent? ==> card.Valid() && !card.usable
    ensures r.Err? ==> r.error == FailureFor(card.link.script(old(card.link.tick) + 1).answer)
    ensures OneAttempt(old(card.log), card.log, request)
    ensures LeasedIn(old(card.log), card.log, request, timeout,
                     old(card.link.generation) + card.link.script(old(card.link.tick)).bump)
  {
    var answer := card.Send(request, timeout);
    r := ConcludeHandshake(card, answer);
  }

  /** An answer counts only in the captured generation; only a proof that nothing was sent spares the card. */
  method ConcludeHandshake(card: Card, answer: Answer) returns (r: Result<Payload>)
    requires card.Tracked()
    modifies card, card.link
    ensures card.Tracked() && card.generation == old(card.generation)
    ensures card.link.generation >= old(card.link.generation)
    ensures r.Ok? <==> && answer.Answered?
                       && old(card.link.generation) + card.link.script(old(card.link.tick)).bump == card.generation
    ensures r.Ok? ==> Answered(r.value) == answer && card.link.tick == old(card.link.tick) + 1
    ensures r.Ok? ==> card.link.generation == card.generation
    ensures r.Err? ==> r.error == FailureFor(answer)
    ensures if r.Ok? || r.error.outcome.NotSent? then
              card.log == old(card.log) && card.Snap() == old(card.Snap()) && card.Now() == old(card.Now())
            else card.log == old(card.log) + [Invalidated] && card.Valid() && !card.usable
  {
    match answer
    case Threw =>
      card.InvalidateLocked();
      r := Err(Error(Internal, Unknown));
    case Failed(error) =>
      if !error.outcome.NotSent? {
        card.InvalidateLocked();
      }
      r := Err(error);
    case Answered(payload) =>
      var observed := card.link.Look();
      if observed != card.generation {
        card.InvalidateLocked();
        return Err(Error(CardRemoved, Unknown));
      }
      r := Ok(payload);
  }

  /** The authentication a native handshake proves. */
  function Proved(family: Family, keyNumber: nat, information: AuthenticationInfo, counter: nat): Auth {
    if family.StandardFamily? then StandardAes(keyNumber) else Ev2(keyNumber, information, counter)
  }

  /** Replace whatever session there was by the one the card has just proved. */
  method InstallNative(card: Card, family: Family, keyNumber: nat, information: AuthenticationInfo, counter: nat)
    requires card.Tracked() && card.usable && card.isoSession.None? && card.link.generation == card.generation
    requires card.Now().life.Live? && card.selectedApplication == card.Now().life.selected
    requires EntryOk(card.Now(), Authenticated(Proved(family, keyNumber, information, counter)))
    modifies card
    ensures card.Valid()
    ensures card.log == old(card.log) + [Authenticated(Proved(family, keyNumber, information, counter))]
    ensures card.Snap() == Snapshot(
              true,
              if family.StandardFamily? then Some(StandardSession(card.generation)) else None,
              if family.StandardFamily? then None else Some(Ev2Session(card.generation, information, counter)),
              None, Some(keyNumber), false, old(card.selectedApplication), old(card.generation))
  {
    card.ClearNativeSession();
    if family.StandardFamily? {
      card.standardSession := Some(StandardSession(card.link.generation));
      card.Record(Authenticated(StandardAes(keyNumber)));
    } else {
      card.ev2Session := Some(Ev2Session(card.link.generation, information, counter));
      card.Record(Authenticated(Ev2(keyNumber, information, counter)));
    }
    card.authenticatedKey := Some(keyNumber);
    card.authenticationResetPending := false;
  }

  /** The session and metadata a successful native authentication must leave. */
  predicate Established(before: Snapshot, after: Snapshot, family: Family, keyNumber: nat,
                        information: AuthenticationInfo) {
    && after.usable && after.authenticatedKey == Some(keyNumber) && after.isoSession.None?
    && !after.authenticationResetPending && after.selectedApplication == before.selectedApplication
    && after.generation == before.generation
    && match family
       case StandardFamily => after.standardSession == Some(StandardSession(after.generation)) && after.ev2Session.None?
       case Ev2First =>
         after.ev2Session == Some(Ev2Session(after.generation, information, 0)) && after.standardSession.None?
       case Ev2NonFirst =>
         && before.ev2Session.Some? && information == before.ev2Session.value.information
         && after.ev2Session == before.ev2Session && after.standardSession.None?
  }

  /** A native handshake with the ISO session moved out; it comes back exactly when nothing was sent. */
  method RunWithoutIso(card: Card, request: Request, timeout: int) returns (r: Result<Payload>)
    requires card.Valid() && card.usable && request.Authenticate? && Admissible(card.Now().life, request)
    requires card.link.seen == card.generation
    modifies card, card.link
    ensures card.Tracked() && card.generation == old(card.generation)
    ensures card.link.generation >= old(card.link.generation)
    ensures r.Ok? <==> Answers(card.link, old(card.link.tick)) && old(card.link.generation) == card.generation
    ensures r.Ok? ==> Answered(r.value) == card.link.script(old(card.link.tick) + 1).answer
    ensures r.Ok? ==> card.Snap() == old(card.Snap()).(isoSession := None) && |card.log| == |old(card.log)| + 1
    ensures r.Ok? ==> card.link.tick == old(card.link.tick) + 3
    ensures r.Ok? ==>
              card.link.generation == card.generation &&
              card.Now() == old(card.Now()).(inFlight := Some(request), latest := card.Now().latest)
    ensures r.Err? ==> card.Valid() && r.error == FailureFor(card.link.script(old(card.link.tick) + 1).answer)
    ensures r.Err? && r.error.outcome.NotSent? ==> card.Snap() == old(card.Snap())
    ensures r.Err? && !r.error.outcome.NotSent? ==> !card.usable
    ensures OneAttempt(old(card.log), card.log, request)
    ensures LeasedIn(old(card.log), card.log, request, timeout,
                     old(card.link.generation) + card.link.script(old(card.link.tick)).bump)
  {
    var previousIsoSession := card.isoSession;
    card.isoSession := None;
    r := RunHandshake(card, request, timeout);
    if r.Err? && r.error.outcome.NotSent? {
      card.isoSession := previousIsoSession;
    }
  }

  method AuthenticateNativeLocked(card: Card, family: Family, keyNumber: nat, key: AesKey, capabilities: nat,
                                  timeout: int)
    returns (r: Result<AuthenticationInfo>)
    requires card.Valid() && card.usable && (family.Ev2NonFirst? ==> card.ev2Session.Some?)
    requires card.link.seen == card.generation
    modifies card, card.link
    ensures card.Valid() && card.generation == old(card.generation)
    ensures card.link.generation >= old(card.link.generation)
    ensures r.Ok? ==> card.link.generation == card.generation && card.link.tick == old(card.link.tick) + 3
    ensures r.Ok? <==>
            && key.valid && (family.StandardFamily? || capabilities <= 6) && (family.Ev2NonFirst? ==> capabilities == 0)
            && Answers(card.link, old(card.link.tick)) && old(card.link.generation) == card.generation
            && AnswerOf(card.link.script(old(card.link.tick) + 1).answer).sessionCreated
    ensures r.Ok? ==> Established(old(card.Snap()), card.Snap(), family, keyNumber, r.value)
    ensures r.Ok? ==> |card.log| == |old(card.log)| + 2 && card.log[|old(card.log)| + 1].Authenticated?
    ensures r.Err? && r.error.outcome.NotSent? ==> card.Snap() == old(card.Snap())
    ensures r.Err? && !r.error.outcome.NotSent? ==> !card.usable
    ensures OneAttempt(old(card.log), card.log, Authenticate(family, keyNumber, key.secret, capabilities))
    ensures LeasedIn(old(card.log), card.log, Authenticate(family, keyNumber, key.secret, capabilities), timeout,
                     old(card.link.generation) + card.link.script(old(card.link.tick)).bump)
    // The identity of a First is the one in the handshake's answer.
    ensures r.Ok? && family.Ev2First? ==>
              r.value == AnswerOf(card.link.script(old(card.link.tick) + 1).answer).information
    ensures r.Err? ==>
              r.error == if !key.valid || (!family.StandardFamily? && capabilities > 6)
                            || (family.Ev2NonFirst? && capabilities != 0) then Error(InvalidArgument)
                         else if Answers(card.link, old(card.link.tick))
                                 && old(card.link.generation) == card.generation then Error(InvalidArgument, Unknown)
                         else FailureFor(card.link.script(old(card.link.tick) + 1).answer)
  {
    if !key.valid {
      return Err(Error(InvalidArgument));
    }
    if !family.StandardFamily? && (capabilities > 6 || (family.Ev2NonFirst? && capabilities != 0)) {
      return Err(Error(InvalidArgument));
    }
    r := ProveNative(card, family, keyNumber, key.secret, capabilities, timeout);
  }

  /** Run the handshake and install the session it proves; what an EV2 chain had is handed on by NonFirst. */
  method ProveNative(card: Card, family: Family, keyNumber: nat, secret: nat, capabilities: nat, timeout: int)
    returns (r: Result<AuthenticationInfo>)
    requires card.Valid() && card.usable && (family.Ev2NonFirst? ==> card.ev2Session.Some?)
    requires card.link.seen == card.generation
    modifies card, card.link
    ensures card.Valid() && card.generation == old(card.generation)
    ensures card.link.generation >= old(card.link.generation)
    ensures r.Ok? ==> card.link.generation == card.generation && card.link.tick == old(card.link.tick) + 3
    ensures r.Ok? <==> && Answers(card.link, old(card.link.tick)) && old(card.link.generation) == card.generation
                       && AnswerOf(card.link.script(old(card.link.tick) + 1).answer).sessionCreated
    ensures r.Ok? ==> Established(old(card.Snap()), card.Snap(), family, keyNumber, r.value)
    ensures r.Ok? ==> |card.log| == |old(card.log)| + 2 && card.log[|old(card.log)| + 1].Authenticated?
    ensures r.Err? && r.error.outcome.NotSent? ==> card.Snap() == old(card.Snap())
    ensures r.Err? && !r.error.outcome.NotSent? ==> !card.usable
    ensures OneAttempt(old(card.log), card.log, Authenticate(family, keyNumber, secret, capabilities))
    ensures LeasedIn(old(card.log), card.log, Authenticate(family, keyNumber, secret, capabilities), timeout,
                     old(card.link.generation) + card.link.script(old(card.link.tick)).bump)
    // The identity of a First is the one in the handshake's answer.
    ensures r.Ok? && family.Ev2First? ==>
              r.value == AnswerOf(card.link.script(old(card.link.tick) + 1).answer).information
    ensures r.Err? ==>
              r.error == if Answers(card.link, old(card.link.tick)) && old(card.link.generation) == card.generation then
                           Error(InvalidArgument, Unknown)
                         else FailureFor(card.link.script(old(card.link.tick) + 1).answer)
  {
    var previousInformation :=
      if card.ev2Session.Some? then card.ev2Session.value.information else AuthenticationInfo([], [], []);
    var previousCounter := if card.ev2Session.Some? then card.ev2Session.value.counter else 0;
    var proof := RunWithoutIso(card, Authenticate(family, keyNumber, secret, capabilities), timeout);
    if proof.Err? {
      return Err(proof.error);
    }
    if !proof.value.sessionCreated {
      card.InvalidateLocked();
      return Err(Error(InvalidArgument, Unknown));
    }
    // NonFirst hands the metadata it was given on to the new session.
    var information := if family.Ev2NonFirst? then previousInformation else proof.value.information;
    InstallNative(card, family, keyNumber, information, if family.Ev2NonFirst? then previousCounter else 0);
    r := Ok(information);
  }

  /**
   Authenticate Standard AES, EV2 First or EV2 NonFirst. Failing unsent, for whatever reason and
   wherever the key came from, leaves every managed field as it was.
   */
  method AuthenticateNative(card: Card, family: Family, source: KeySource, capabilities: nat, timeout: int)
    returns (r: Result<AuthenticationInfo>)
    requires card.Valid() && (capabilities > 0 ==> family.Ev2First?)
    modifies card, card.link
    ensures card.Valid() && card.generation == old(card.generation)
    ensures r.Ok? ==> old(card.link.generation) == card.link.generation == card.generation
    ensures r.Ok? ==> card.link.tick == old(card.link.tick) + (if source.Direct? then 5 else 8)
    ensures r.Ok? ==> Established(old(card.Snap()), card.Snap(), family, source.KeyNumber(), r.value)
    ensures r.Ok? ==> ValidNativeSource(source, family)
    ensures r.Err? && r.error.outcome.NotSent? && card.link.generation == card.generation ==>
              card.Snap() == old(card.Snap())
    ensures r.Err? && !r.error.outcome.NotSent? ==> !card.usable
    ensures OneAuthentication(old(card.log), card.log, Handshake(family, source, capabilities))
    // Handed over in the captured generation exactly when no change was reported from the look to the lease, the key
    // call included.
    ensures LeasedIn(old(card.log), card.log, Handshake(family, source, capabilities), timeout,
                     LeaseAfter(source, card.link, old(card.link.tick) + 2, card.generation))
    ensures var t := old(card.link.tick);
            var at := t + (if source.Direct? then 2 else 5);
            r.Ok? <==> && old(card.usable) && (family.Ev2NonFirst? ==> old(card.ev2Session).Some?)
                       && old(card.link.generation) == card.generation && Clears(card.link, t, timeout)
                       && ValidNativeSource(source, family) && capabilities <= 6 && Resolves(source, card.link, t + 2)
                       && (!source.Direct? ==> card.link.script(t + 3).bump == 0)
                       && Answers(card.link, at) && AnswerOf(card.link.script(at + 1).answer).sessionCreated
    // The identity of a First is the one in the handshake's answer.
    ensures r.Ok? && family.Ev2First? ==>
              var at := old(card.link.tick) + (if source.Direct? then 3 else 6);
              r.value == AnswerOf(card.link.script(at).answer).information
    // Which key number counts.
    ensures r.Ok? ==>
              card.authenticatedKey == Some(if source.Direct? then source.keyNumber
                                            else if source.Derive? then source.context.keyNumber
                                            else source.request.context.keyNumber)
    // Which error, first reason first.
    ensures var t := old(card.link.tick);
            r.Err? ==>
              r.error == if !(&& old(card.usable) && (family.Ev2NonFirst? ==> old(card.ev2Session).Some?)
                              && old(card.link.generation) == card.generation && Clears(card.link, t, timeout)) then
                           Error(old(PreflightCode(card, family.Ev2NonFirst?, timeout)))
                         else if !ValidNativeSource(source, family) || (!source.Direct? && capabilities > 6) then
                           Error(InvalidArgument)
                         else NoNativeSession(source, capabilities, card.link, t + 2)
    ensures r.Ok? ==> AttemptAt(card.log, |old(card.log)| + (if source.Direct? then 0 else 1))
  {
    var refusal := Preflight(card, family.Ev2NonFirst?, timeout);
    if refusal.Some? {
      return Err(refusal.value);
    }
    if (!source.Direct? && capabilities > 6) || !ValidNativeSource(source, family) {
      return Err(Error(InvalidArgument));
    }
    r := AuthenticateResolved(card, family, source, capabilities, timeout);
  }

  /** A key call before the attempt is no attempt. */
  lemma KeyCallFirst(before: Log, middle: Log, after: Log, request: Request, timeout: int, generation: nat)
    requires middle == before || middle == before + [KeyCall]
    requires OneAttempt(middle, after, request) && LeasedIn(middle, after, request, timeout, generation)
    ensures OneAuthentication(before, after, request) && LeasedIn(before, after, request, timeout, generation)
    ensures |after| > |middle| ==> AttemptAt(after, |middle|)
  {
    assert forall k :: |before| <= k < |middle| ==> after[k] == middle[k] == KeyCall;
  }

  /** After the preflight: obtain the key, then run the handshake. */
  method AuthenticateResolved(card: Card, family: Family, source: KeySource, capabilities: nat, timeout: int)
    returns (r: Result<AuthenticationInfo>)
    requires card.Valid() && card.usable && (family.Ev2NonFirst? ==> card.ev2Session.Some?)
    requires card.link.seen == card.link.generation == card.generation && (capabilities > 0 ==> family.Ev2First?)
    modifies card, card.link
    ensures card.Valid() && card.generation == old(card.generation)
    ensures r.Ok? ==> card.link.generation == card.generation
    ensures r.Ok? ==> card.link.tick == old(card.link.tick) + (if source.Direct? then 3 else 6)
    ensures r.Ok? ==> Established(old(card.Snap()), card.Snap(), family, source.KeyNumber(), r.value)
    ensures r.Err? && r.error.outcome.NotSent? ==> card.Snap() == old(card.Snap())
    ensures r.Err? && !r.error.outcome.NotSent? ==> !card.usable
    ensures OneAuthentication(old(card.log), card.log, Handshake(family, source, capabilities))
    ensures LeasedIn(old(card.log), card.log, Handshake(family, source, capabilities), timeout,
                     LeaseAfter(source, card.link, old(card.link.tick), card.generation))
    ensures var t := old(card.link.tick);
            var at := t + (if source.Direct? then 0 else 3);
            r.Ok? <==> && capabilities <= 6 && Resolves(source, card.link, t)
                       && (!source.Direct? ==> card.link.script(t + 1).bump == 0)
                       && Answers(card.link, at) && AnswerOf(card.link.script(at + 1).answer).sessionCreated
    // The identity of a First is the one in the handshake's answer.
    ensures r.Ok? && family.Ev2First? ==>
              var at := old(card.link.tick) + (if source.Direct? then 1 else 4);
              r.value == AnswerOf(card.link.script(at).answer).information
    ensures r.Err? ==> r.error == NoNativeSession(source, capabilities, card.link, old(card.link.tick))
    ensures r.Ok? ==> AttemptAt(card.log, |old(card.log)| + (if source.Direct? then 0 else 1))
  {
    var key := ResolveOnce(card, source);
    ghost var middle, at := card.log, card.link.tick;
    if key.Err? {
      r := Err(key.error);
    } else {
      assert at == old(card.link.tick) + (if source.Direct? then 0 else 3);
      assert |middle| == |old(card.log)| + (if source.Direct? then 0 else 1);
      r := AuthenticateNativeLocked(card, family, source.KeyNumber(), key.value, capabilities, timeout);
      assert r.Ok? ==> AttemptAt(card.log, |middle|);
    }
    KeyCallFirst(old(card.log), middle, card.log, Handshake(family, source, capabilities),
                 timeout, LeaseAfter(source, card.link, old(card.link.tick), card.generation));
  }

  method InstallIso(card: Card)
    requires card.Tracked() && card.usable && !card.Snap().HasSession() && card.authenticatedKey.None?
    requires card.link.generation == card.generation
    requires card.Now().life.Live? && card.selectedApplication == card.Now().life.selected
    requires EntryOk(card.Now(), Authenticated(IsoAes))
    modifies card
    ensures card.Valid() && card.log == old(card.log) + [Authenticated(IsoAes)]
    ensures card.Snap() == Snapshot(true, None, None, Some(IsoSession(card.generation)), None, false,
                                    old(card.selectedApplication), old(card.generation))
  {
    card.isoSession := Some(IsoSession(card.link.generation));
    card.authenticationResetPending := false;
    card.Record(Authenticated(IsoAes));
  }

  method AuthenticateIsoLocked(card: Card, reference: nat, key: AesKey, timeout: int) returns (r: Result<()>)
    requires card.Valid() && card.usable && card.link.seen == card.generation
    modifies card, card.link
    ensures card.Valid() && card.generation == old(card.generation)
    ensures card.link.generation >= old(card.link.generation)
    ensures r.Ok? ==> card.link.generation == card.generation && card.link.tick == old(card.link.tick) + 3
    ensures r.Ok? <==> !old(card.authenticationResetPending) && key.valid && Answers(card.link, old(card.link.tick)) &&
                       old(card.link.generation) == card.generation
    ensures r.Ok? ==> card.Snap() == Snapshot(true, None, None, Some(IsoSession(card.generation)), None, false,
                                              old(card.selectedApplication), card.generation)
    ensures r.Err? && r.error.outcome.NotSent? ==> card.Snap() == old(card.Snap())
    ensures r.Err? && !r.error.outcome.NotSent? ==> !card.usable
    ensures OneAttempt(old(card.log), card.log, AuthenticateIso(reference, key.secret))
    ensures LeasedIn(old(card.log), card.log, AuthenticateIso(reference, key.secret), timeout,
                     old(card.link.generation) + card.link.script(old(card.link.tick)).bump)
    ensures r.Err? ==>
              r.error == if old(card.authenticationResetPending) then Error(SessionInvalid)
                         else if !key.valid then Error(InvalidArgument)
                         else FailureFor(card.link.script(old(card.link.tick) + 1).answer)
    ensures r.Ok? ==> AttemptAt(card.log, |old(card.log)|)
  {
    if card.authenticationResetPending {
      return Err(Error(SessionInvalid));
    }
    if !key.valid {
      return Err(Error(InvalidArgument));
    }
    var previous := card.Snap();
    card.MoveSessionsOut();
    var proof := RunHandshake(card, AuthenticateIso(reference, key.secret), timeout);
    if proof.Err? {
      if proof.error.outcome.NotSent? {
        card.Restore(previous);
      }
      return Err(proof.error);
    }
    InstallIso(card);
    r := Ok(());
  }

  method AuthenticateIsoAes(card: Card, reference: nat, source: KeySource, timeout: int) returns (r: Result<()>)
    requires card.Valid()
    modifies card, card.link
    ensures card.Valid() && card.generation == old(card.generation)
    ensures r.Ok? ==> old(card.link.generation) == card.link.generation == card.generation
    ensures r.Ok? ==> card.link.tick == old(card.link.tick) + (if source.Direct? then 5 else 8)
    ensures r.Ok? ==> ValidIsoSource(source, reference)
    ensures r.Ok? ==> card.Snap() == Snapshot(true, None, None, Some(IsoSession(card.generation)), None, false,
                                              old(card.selectedApplication), card.generation)
    ensures r.Err? && r.error.outcome.NotSent? && card.link.generation == card.generation ==>
              card.Snap() == old(card.Snap())
    ensures r.Err? && !r.error.outcome.NotSent? ==> !card.usable
    ensures OneAuthentication(old(card.log), card.log, AuthenticateIso(reference, KeyFrom(source).secret))
    // Handed over in the captured generation exactly when no change was reported from the look to the lease, the key
    // call included.
    ensures LeasedIn(old(card.log), card.log, AuthenticateIso(reference, KeyFrom(source).secret), timeout,
                     LeaseAfter(source, card.link, old(card.link.tick) + 2, card.generation))
    ensures var t := old(card.link.tick);
            r.Ok? <==> && old(card.usable) && !old(card.authenticationResetPending)
                       && old(card.link.generation) == card.generation && Clears(card.link, t, timeout)
                       && ValidIsoSource(source, reference) && Resolves(source, card.link, t + 2)
                       && (!source.Direct? ==> card.link.script(t + 3).bump == 0)
                       && Answers(card.link, t + (if source.Direct? then 2 else 5))
    // Which error, first reason first.
    ensures var t := old(card.link.tick);
            r.Err? ==>
              r.error == if !(&& old(card.usable) && old(card.link.generation) == card.generation
                              && Clears(card.link, t, timeout)) then
                           Error(old(PreflightCode(card, false, timeout)))
                         else if !ValidIsoSource(source, reference) then Error(InvalidArgument)
                         else if !source.Direct? && !Resolves(source, card.link, t + 2) then
                           NoKey(source, card.link, t + 2)
                         else if old(card.authenticationResetPending) then Error(SessionInvalid)
                         else NoHandshake(source, card.link, t + 2)
    ensures r.Ok? ==> AttemptAt(card.log, |old(card.log)| + (if source.Direct? then 0 else 1))
  {
    var refusal := Preflight(card, false, timeout);
    if refusal.Some? {
      return Err(refusal.value);
    }
    if !ValidIsoSource(source, reference) {
      return Err(Error(InvalidArgument));
    }
    r := AuthenticateIsoResolved(card, reference, source, timeout);
  }

  /** After the preflight: obtain the key, then run the handshake. */
  method AuthenticateIsoResolved(card: Card, reference: nat, source: KeySource, timeout: int) returns (r: Result<()>)
    requires card.Valid() && card.usable && card.link.seen == card.link.generation == card.generation
    modifies card, card.link
    ensures card.Valid() && card.generation == old(card.generation)
    ensures r.Ok? ==> card.link.generation == card.generation
    ensures r.Ok? ==> card.link.tick == old(card.link.tick) + (if source.Direct? then 3 else 6)
    ensures r.Ok? ==> card.Snap() == Snapshot(true, None, None, Some(IsoSession(card.generation)), None, false,
                                              old(card.selectedApplication), card.generation)
    ensures r.Err? && r.error.outcome.NotSent? ==> card.Snap() == old(card.Snap())
    ensures r.Err? && !r.error.outcome.NotSent? ==> !card.usable
    ensures OneAuthentication(old(card.log), card.log, AuthenticateIso(reference, KeyFrom(source).secret))
    ensures LeasedIn(old(card.log), card.log, AuthenticateIso(reference, KeyFrom(source).secret), timeout,
                     LeaseAfter(source, card.link, old(card.link.tick), card.generation))
    ensures var t := old(card.link.tick);
            r.Ok? <==> && !old(card.authenticationResetPending) && Resolves(source, card.link, t)
                       && (!source.Direct? ==> card.link.script(t + 1).bump == 0)
                       && Answers(card.link, t + (if source.Direct? then 0 else 3))
    ensures var t := old(card.link.tick);
            r.Err? ==>
              r.error == if !source.Direct? && !Resolves(source, card.link, t) then NoKey(source, card.link, t)
                         else if old(card.authenticationResetPending) then Error(SessionInvalid)
                         else NoHandshake(source, card.link, t)
    ensures r.Ok? ==> AttemptAt(card.log, |old(card.log)| + (if source.Direct? then 0 else 1))
  {
    var key := ResolveOnce(card, source);
    ghost var middle := card.log;
    if key.Err? {
      r := Err(key.error);
    } else {
      r := AuthenticateIsoLocked(card, reference, key.value, timeout);
    }
    KeyCallFirst(old(card.log), middle, card.log, AuthenticateIso(reference, KeyFrom(source).secret), timeout,
                 LeaseAfter(source, card.link, old(card.link.tick), card.generation));
  }
}
