/** Sessions of a raw channel entry: no managed policy, one generation bound to whatever is present. */
module RawSessions {
  import opened Results
  import opened CardTrace
  import opened Reader

  /** `born` is the generation of the lease under which the card completed the authentication. */
  datatype Session = Session(born: nat)
  datatype ChainedSession = ChainedSession(born: nat, information: AuthenticationInfo, counter: nat)

  function Counted(s: ChainedSession): ChainedSession {
    s.(counter := s.counter + 1)
  }

  datatype Protection = Unprotected | ByStandard | ByEv2(information: AuthenticationInfo, counter: nat) | ByIso

  /**
   Where a protected command stands: the generation its session was born in, the one the session was
   bound to, read at tick `boundAt`, and the one reported when the command was admitted.
   */
  datatype Standing = Standing(born: nat, bound: nat, boundAt: nat, observed: nat)

  /** One command handed to the transport under the lease opened at tick `leasedAt`, in generation `sentIn`. */
  datatype Exchange = Exchange(
    request: Request,
    timeout: int,
    protection: Protection,
    sessionsHeld: nat,
    standing: Standing,
    leasedAt: nat,
    sentIn: nat,
    startsChain: bool := false)

  const NOWHERE: Standing := Standing(0, 0, 0, 0)

  /**
   An unprotected command leaves with no session. A protected one has a current binding; its session was
   born in the bound generation but for a change reported as the binding was read, and it is sent in the
   admitted generation but for a change reported as its lease was opened.
   */
  predicate Allowed(e: Exchange, link: Reader) {
    if e.protection.Unprotected? then e.sessionsHeld == 0
    else
      && e.sessionsHeld == 1
      && 0 < e.standing.bound == e.standing.observed
      && e.standing.bound == e.standing.born + link.script(e.standing.boundAt).bump
      && e.sentIn == e.standing.observed + link.script(e.leasedAt).bump
  }

  /** The entry's note of an exchange agrees with what the reader heard. */
  predicate Matches(e: Exchange, heard: Entry) {
    && heard.Attempt? && heard.request == e.request && heard.timeout == e.timeout
    && heard.generation == e.sentIn
  }

  /** No EV2 First authentication was sent after exchange `i`, up to and including `j`. */
  predicate SameChain(exchanges: seq<Exchange>, i: int, j: int) {
    forall k :: 0 <= k < |exchanges| && i < k <= j ==> !exchanges[k].startsChain
  }

  /** Within one EV2 chain every command has the same identity and a larger counter than those before it. */
  predicate ChainsOk(exchanges: seq<Exchange>) {
    forall i, j ::
      (&& 0 <= i < j < |exchanges| && exchanges[i].protection.ByEv2? && exchanges[j].protection.ByEv2?
       && SameChain(exchanges, i, j)) ==>
      exchanges[i].protection.information == exchanges[j].protection.information &&
      exchanges[i].protection.counter < exchanges[j].protection.counter
  }

  /** The running chain continues what has been sent under it. */
  predicate Continues(exchanges: seq<Exchange>, session: ChainedSession) {
    forall i :: 0 <= i < |exchanges| && exchanges[i].protection.ByEv2? && SameChain(exchanges, i, |exchanges|) ==>
      exchanges[i].protection.information == session.information && exchanges[i].protection.counter < session.counter
  }

  lemma ChainsAppend(exchanges: seq<Exchange>, e: Exchange, session: Option<ChainedSession>)
    requires ChainsOk(exchanges) && (session.Some? ==> Continues(exchanges, session.value))
    requires e.protection.ByEv2? ==>
               && !e.startsChain && session.Some?
               && e.protection == ByEv2(session.value.information, session.value.counter)
    ensures ChainsOk(exchanges + [e])
    ensures e.startsChain ==> forall next: ChainedSession :: Continues(exchanges + [e], next)
    ensures session.Some? && e.protection.ByEv2? ==> Continues(exchanges + [e], Counted(session.value))
    ensures session.Some? && !e.protection.ByEv2? ==> Continues(exchanges + [e], session.value)
  {
    var n := |exchanges|;
    var longer := exchanges + [e];
    forall i, j | 0 <= i < j <= n && SameChain(longer, i, j)
      ensures SameChain(exchanges, i, if j == n then n else j)
    {
      forall k | 0 <= k < |exchanges| && i < k <= j ensures !exchanges[k].startsChain {
        assert !longer[k].startsChain;
      }
    }
    forall i | 0 <= i < n && SameChain(longer, i, n + 1) ensures !e.startsChain && SameChain(exchanges, i, n) {
      assert !longer[n].startsChain;
      assert SameChain(longer, i, n);
    }
    if e.startsChain {
      forall i | 0 <= i < n ensures !SameChain(longer, i, |longer|) {
        assert longer[n].startsChain;
      }
    }
  }

  /**
   One exchange under a lease of the channel: the generation is captured when the lease is opened and
   compared before the command goes out and after the answer.
   */
  method LeasedExchange(link: Reader, request: Request, timeout: int) returns (answer: Answer, ghost sent: bool)
    modifies link
    ensures sent <==> link.script(old(link.tick) + 1).bump == 0
    ensures link.generation >= old(link.generation) + link.script(old(link.tick)).bump
    ensures !sent ==> answer == Failed(Error(CardRemoved)) && link.heard == old(link.heard)
    ensures sent ==> |link.heard| == |old(link.heard)| + 1 && old(link.heard) <= link.heard
    ensures sent ==> var heard := link.heard[|old(link.heard)|];
                     && heard.Attempt? && heard.request == request && heard.timeout == timeout
                     && heard.generation == old(link.generation) + link.script(old(link.tick)).bump
    ensures answer.Answered? <==> Kept(link, old(link.tick))
    ensures answer.Answered? ==> SamePayload(answer.payload, link.script(old(link.tick) + 2).answer.payload)
    ensures answer.Answered? ==> link.generation == old(link.generation) + link.script(old(link.tick)).bump
    ensures answer.Answered? ==> link.tick == old(link.tick) + 4
    ensures answer.Threw? <==> sent && link.script(old(link.tick) + 2).answer.Threw?
    ensures answer.Failed? ==> answer.error == LeaseFailure(link, old(link.tick))
  {
    sent := false;
    var lease := link.ReadGeneration();
    var before := link.ReadGeneration();
    if before != lease {
      return Failed(Error(CardRemoved)), sent;
    }
    sent := true;
    answer := link.Exchange(request, timeout);
    if answer.Answered? {
      var after := link.ReadGeneration();
      if after != lease {
        answer := Failed(Error(CardRemoved, Unknown));
      }
    }
  }

  /** A lease opened at this tick is kept to its end, and the card answers. */
  predicate Kept(link: Reader, tick: nat) {
    && link.script(tick + 1).bump == 0 && link.script(tick + 2).bump == 0 && link.script(tick + 3).bump == 0
    && link.script(tick + 2).answer.Answered?
  }

  /** What an exchange under a lease opened at this tick and not kept comes to. */
  function LeaseFailure(link: Reader, tick: nat): Error {
    if link.script(tick + 1).bump != 0 then Error(CardRemoved)
    else
      match link.script(tick + 2).answer
      case Threw => Error(Internal, Unknown)
      case Failed(error) => error
      case Answered(_) => Error(CardRemoved, Unknown)
  }

  /** What a handshake that creates no session comes to. */
  function FailureOf(answer: Answer): Error {
    match answer
    case Threw => Error(Internal, Unknown)
    case Failed(error) => error
    case Answered(_) => Error(InvalidArgument)
  }

  const READ_BINARY: nat := 0xB0
  const READ_RECORD: nat := 0xB2

  predicate Reads(command: IsoCommand) {
    command.instruction == READ_BINARY || command.instruction == READ_RECORD
  }

  class RawEntry {
    const link: Reader
    const native: bool
    const iso: bool
    var standardSession: Option<Session>
    var ev2Session: Option<ChainedSession>
    var isoSession: Option<Session>
    var sessionGeneration: nat
    ghost const prior: Log
    ghost var boundAt: nat
    ghost var exchanges: seq<Exchange>

    function SessionsHeld(): nat
      reads this
    {
      (if standardSession.Some? then 1 else 0)
      + (if ev2Session.Some? then 1 else 0)
      + (if isoSession.Some? then 1 else 0)
    }

    /** The generation in which the held session was established. */
    function Born(): nat
      requires SessionsHeld() == 1
      reads this
    {
      if standardSession.Some? then standardSession.value.born
      else if ev2Session.Some? then ev2Session.value.born
      else isoSession.value.born
    }

    /** The exchanges noted are exactly the commands heard since the entry was opened, all allowed, in good chains. */
    ghost predicate Noted(heard: Log)
      reads this
    {
      && prior <= heard && |heard| == |prior| + |exchanges|
      && (forall i :: 0 <= i < |exchanges| ==> Matches(exchanges[i], heard[|prior| + i]) && Allowed(exchanges[i], link))
      && ChainsOk(exchanges)
    }

    /** Note the command the reader has just heard. */
    ghost method Note(e: Exchange, heard: Log, chain: Option<ChainedSession>)
      requires Noted(heard) && heard <= link.heard && |link.heard| == |heard| + 1
      requires Matches(e, link.heard[|heard|]) && Allowed(e, link)
      requires chain.Some? ==> Continues(exchanges, chain.value)
      requires e.protection.ByEv2? ==>
                 !e.startsChain && chain.Some? && e.protection == ByEv2(chain.value.information, chain.value.counter)
      modifies this`exchanges
      ensures Noted(link.heard) && exchanges == old(exchanges) + [e]
      ensures e.startsChain ==> forall next: ChainedSession :: Continues(exchanges, next)
      ensures chain.Some? ==>
                Continues(exchanges, if e.protection.ByEv2? then Counted(chain.value) else chain.value)
    {
      ChainsAppend(exchanges, e, chain);
      exchanges := exchanges + [e];
    }

    ghost predicate Valid()
      reads this, link
    {
      && link.generation >= 1 && Noted(link.heard)
      && SessionsHeld() <= 1
      && (SessionsHeld() == 1 ==> 0 < sessionGeneration == Born() + link.script(boundAt).bump)
      && (ev2Session.Some? ==> ev2Session.value.counter <= MAX_COUNTER)
      && (standardSession.Some? || ev2Session.Some? ==> native) && (isoSession.Some? ==> iso)
      && (ev2Session.Some? ==> Continues(exchanges, ev2Session.value))
    }

    constructor (link: Reader, native: bool, iso: bool)
      requires link.generation >= 1
      ensures Valid() && this.link == link && this.native == native && this.iso == iso && prior == link.heard
      ensures SessionsHeld() == 0 && sessionGeneration == 0 && exchanges == []
    {
      this.link, this.native, this.iso := link, native, iso;
      standardSession, ev2Session, isoSession, sessionGeneration := None, None, None, 0;
      prior, boundAt, exchanges := link.heard, 0, [];
    }

    /** At most one exchange was added: this one, which starts an EV2 chain exactly when `first` says so. */
    ghost predicate Extends(before: seq<Exchange>, after: seq<Exchange>, request: Request, timeout: int, first: bool) {
      || after == before
      || (&& |after| == |before| + 1 && before == after[..|before|] && after[|before|].startsChain == first
          && after[|before|].request == request && after[|before|].timeout == timeout)
    }

    method ClearSessions()
      modifies this`standardSession, this`ev2Session, this`isoSession, this`sessionGeneration
      ensures SessionsHeld() == 0 && sessionGeneration == 0
    {
      standardSession := None;
      ev2Session := None;
      isoSession := None;
      sessionGeneration := 0;
    }

    /** A session may be used only while the transport still reports the generation it was bound to. */
    method RequireCurrentSession() returns (r: Result<()>)
      requires Valid()
      modifies this`standardSession, this`ev2Session, this`isoSession, this`sessionGeneration
      modifies link`tick, link`generation, link`picc
      ensures Valid() && link.generation >= old(link.generation)
      ensures r.Ok? ==> old(sessionGeneration) == sessionGeneration == link.generation > 0
      ensures r.Ok? ==>
                && standardSession == old(standardSession) && ev2Session == old(ev2Session)
                && isoSession == old(isoSession)
      ensures r.Ok? <==> old(sessionGeneration) != 0 &&
                         old(sessionGeneration) == old(link.generation) + link.script(old(link.tick)).bump
      ensures r.Ok? ==> link.tick == old(link.tick) + 1
      ensures r.Err? ==> SessionsHeld() == 0 && sessionGeneration == 0 && r.error == Error(SessionInvalid)
    {
      var observed := link.ReadGeneration();
      if sessionGeneration == 0 || sessionGeneration != observed {
        ClearSessions();
        return Err(Error(SessionInvalid));
      }
      r := Ok(());
    }

    /**
     Send without protection under a lease, and note it if it went out. `kept` is a chain taken out of
     the entry while its NonFirst authentication is under way.
     */
    method SendUnprotected(request: Request, timeout: int, ghost startsChain: bool, ghost kept: Option<ChainedSession>)
      returns (answer: Answer)
      requires Valid() && SessionsHeld() == 0
      requires kept.Some? ==> Continues(exchanges, kept.value)
      modifies this`exchanges, link
      ensures Valid() && link.generation >= old(link.generation) + link.script(old(link.tick)).bump
      ensures Extends(old(exchanges), exchanges, request, timeout, startsChain)
      ensures exchanges != old(exchanges) <==> link.script(old(link.tick) + 1).bump == 0
      ensures kept.Some? ==> Continues(exchanges, kept.value)
      ensures answer.Answered? <==> Kept(link, old(link.tick))
      ensures answer.Answered? ==> SamePayload(answer.payload, link.script(old(link.tick) + 2).answer.payload)
      ensures answer.Answered? ==> link.generation == old(link.generation) + link.script(old(link.tick)).bump
      ensures answer.Answered? ==> link.tick == old(link.tick) + 4
      ensures answer.Answered? && startsChain ==> forall next: ChainedSession :: Continues(exchanges, next)
      ensures answer.Failed? ==> answer.error == LeaseFailure(link, old(link.tick))
      ensures answer.Threw? ==> LeaseFailure(link, old(link.tick)) == Error(Internal, Unknown)
      ensures answer.Threw? <==>
              link.script(old(link.tick) + 1).bump == 0 && link.script(old(link.tick) + 2).answer.Threw?
      ensures exchanges != old(exchanges) ==> exchanges[|old(exchanges)|].protection.Unprotected?
    {
      ghost var leasedAt, leasedIn := link.tick, link.generation + link.script(link.tick).bump;
      ghost var sent, heard := false, link.heard;
      answer, sent := LeasedExchange(link, request, timeout);
      if sent {
        ghost var e := Exchange(request, timeout, Unprotected, 0, NOWHERE, leasedAt, leasedIn, startsChain);
        Note(e, heard, kept);
      }
    }

    /** A native frame, a native exchange or an ISO exchange without secure messaging. */
    method ExchangeUnprotected(request: Request, timeout: int) returns (r: Result<Payload>)
      requires Valid()
      modifies this, link
      ensures Valid() && Extends(old(exchanges), exchanges, request, timeout, false)
      ensures (if request.Iso? then !iso else !native) ==>
                && r == Err(Error(Unsupported)) && exchanges == old(exchanges)
                && standardSession == old(standardSession) && ev2Session == old(ev2Session)
                && isoSession == old(isoSession) && sessionGeneration == old(sessionGeneration)
      ensures (if request.Iso? then iso else native) ==>
                && SessionsHeld() == 0 && sessionGeneration == 0 && (r.Ok? <==> Kept(link, old(link.tick)))
                && (exchanges != old(exchanges) <==> link.script(old(link.tick) + 1).bump == 0)
                && (r.Err? ==> r.error == LeaseFailure(link, old(link.tick)))
      ensures exchanges != old(exchanges) ==> exchanges[|old(exchanges)|].protection.Unprotected?
      ensures r.Ok? ==> SamePayload(r.value, link.script(old(link.tick) + 2).answer.payload)
    {
      if (if request.Iso? then !iso else !native) {
        return Err(Error(Unsupported));
      }
      ClearSessions();
      var answer := SendUnprotected(request, timeout, false, None);
      match answer
      case Answered(payload) => r := Ok(payload);
      case Failed(error) => r := Err(error);
      case Threw => r := Err(Error(Internal, Unknown));
    }

    /** Bind whatever session is held to the generation reported now, which nothing compares with the lease's. */
    method Bind()
      modifies this`sessionGeneration, this`boundAt, link`tick, link`generation, link`picc
      ensures link.generation == old(link.generation) + link.script(old(link.tick)).bump
      ensures sessionGeneration == link.generation && boundAt == old(link.tick) && link.tick == old(link.tick) + 1
    {
      boundAt := link.tick;
      sessionGeneration := link.ReadGeneration();
    }

    /** The handshake at this tick is kept and creates a session. */
    predicate Proves(tick: nat)
    {
      Kept(link, tick) && link.script(tick + 2).answer.payload.sessionCreated
    }

    /**
     Standard AES, EV2 First and ISO AES authentication. The handshake keeps to the generation of its
     lease; the session is then bound to whatever generation is reported afterwards.
     */
    method Authenticate(request: Request, keyResolves: bool, timeout: int) returns (r: Result<()>)
      requires Valid()
      requires request.AuthenticateIso? || (request.Authenticate? && !request.family.Ev2NonFirst?)
      modifies this, link
      ensures Valid()
      ensures Extends(old(exchanges), exchanges, request, timeout, request.Authenticate? && request.family.Ev2First?)
      ensures r.Ok? ==> SessionsHeld() == 1 && sessionGeneration == link.generation
      ensures r.Ok? ==> (if request.AuthenticateIso? then isoSession.Some?
                         else if request.family.StandardFamily? then standardSession.Some?
                         else ev2Session.Some? && ev2Session.value.counter == 0)
      ensures r.Err? && (if request.AuthenticateIso? then iso else native) ==> SessionsHeld() == 0
      ensures r.Err? ==>
                r.error == if !(if request.AuthenticateIso? then iso else native) then Error(Unsupported)
                           else if !keyResolves then Error(Crypto)
                           else if Kept(link, old(link.tick)) then Error(InvalidArgument)
                           else LeaseFailure(link, old(link.tick))
      ensures r.Ok? <==> (if request.AuthenticateIso? then iso else native) && keyResolves && Proves(old(link.tick))
      // The identity of a new chain is the one the card has proved.
      ensures r.Ok? && ev2Session.Some? ==>
                ev2Session.value.information == link.script(old(link.tick) + 2).answer.payload.information
      ensures |exchanges| > |old(exchanges)| <==>
              && (if request.AuthenticateIso? then iso else native) && keyResolves
              && link.script(old(link.tick) + 1).bump == 0
      // Born under the lease, bound afterwards: the same generation exactly when nothing was reported in between.
      ensures r.Ok? ==> Born() == old(link.generation) + link.script(old(link.tick)).bump
      ensures r.Ok? ==> (Born() == sessionGeneration <==> link.script(old(link.tick) + 4).bump == 0)
      ensures r.Ok? ==> boundAt == old(link.tick) + 4 && link.tick == old(link.tick) + 5
      ensures |exchanges| > |old(exchanges)| ==> exchanges[|old(exchanges)|].protection.Unprotected?
    {
      if !(if request.AuthenticateIso? then iso else native) {
        return Err(Error(Unsupported));
      }
      ClearSessions();
      if !keyResolves {
        return Err(Error(Crypto));
      }
      var answer := SendUnprotected(request, timeout, request.Authenticate? && request.family.Ev2First?, None);
      if !answer.Answered? || !answer.payload.sessionCreated {
        return Err(FailureOf(answer));
      }
      Establish(request, answer.payload.information);
      r := Ok(());
    }

    /** Install the session the card has just proved under the generation of its lease, and bind it. */
    method Establish(request: Request, information: AuthenticationInfo)
      requires Valid() && SessionsHeld() == 0 && (if request.AuthenticateIso? then iso else native)
      requires request.Authenticate? && request.family.Ev2First? ==>
                 forall next: ChainedSession :: Continues(exchanges, next)
      requires request.AuthenticateIso? || (request.Authenticate? && !request.family.Ev2NonFirst?)
      modifies this`standardSession, this`ev2Session, this`isoSession, this`sessionGeneration, this`boundAt
      modifies link`tick, link`generation, link`picc
      ensures Valid() && SessionsHeld() == 1 && Born() == old(link.generation)
      ensures sessionGeneration == link.generation == old(link.generation) + link.script(old(link.tick)).bump
      ensures boundAt == old(link.tick) && link.tick == old(link.tick) + 1
      ensures if request.AuthenticateIso? then isoSession.Some?
              else if request.family.StandardFamily? then standardSession.Some?
              else ev2Session.Some? && ev2Session.value == ChainedSession(Born(), information, 0)
    {
      Install(request, link.generation, information);
      Bind();
    }

    method Install(request: Request, born: nat, information: AuthenticationInfo)
      requires SessionsHeld() == 0
      modifies this`standardSession, this`ev2Session, this`isoSession
      ensures SessionsHeld() == 1 && Born() == born
      ensures ev2Session.Some? ==> ev2Session.value == ChainedSession(born, information, 0)
      ensures if request.AuthenticateIso? then isoSession.Some?
              else if request.Authenticate? && request.family.StandardFamily? then standardSession.Some?
              else ev2Session.Some?
    {
      if request.AuthenticateIso? {
        isoSession := Some(Session(born));
      } else if request.Authenticate? && request.family.StandardFamily? {
        standardSession := Some(Session(born));
      } else {
        ev2Session := Some(ChainedSession(born, information, 0));
      }
    }

    /** EV2 NonFirst: the metadata and the counter of the running chain go into the new session. */
    method AuthenticateNonFirst(key: nat, secret: nat, keyResolves: bool, timeout: int)
      returns (r: Result<AuthenticationInfo>)
      requires Valid()
      modifies this, link
      ensures Valid()
      ensures Extends(old(exchanges), exchanges, Request.Authenticate(Ev2NonFirst, key, secret, 0), timeout, false)
      ensures r.Ok? ==> old(ev2Session).Some? && ev2Session.Some? && SessionsHeld() == 1
      ensures r.Ok? ==> r.value == ev2Session.value.information == old(ev2Session).value.information
      ensures r.Ok? ==> ev2Session.value.counter == old(ev2Session).value.counter
      ensures r.Ok? ==> sessionGeneration == link.generation
      ensures r.Err? && old(ev2Session).Some? ==> SessionsHeld() == 0
      ensures |exchanges| > |old(exchanges)| <==>
              && old(ev2Session).Some? && keyResolves && link.script(old(link.tick) + 2).bump == 0
              && old(sessionGeneration) == old(link.generation) + link.script(old(link.tick)).bump
      ensures r.Err? ==>
                r.error == if old(ev2Session).None?
                              || old(sessionGeneration) != old(link.generation) + link.script(old(link.tick)).bump then
                             Error(SessionInvalid)
                           else if !keyResolves then Error(Crypto)
                           else if Kept(link, old(link.tick) + 1) then Error(InvalidArgument)
                           else LeaseFailure(link, old(link.tick) + 1)
      ensures r.Ok? <==> && old(ev2Session).Some? && keyResolves && Proves(old(link.tick) + 1)
                         && old(sessionGeneration) == old(link.generation) + link.script(old(link.tick)).bump
      // The renewed session is rebound in the same way.
      ensures r.Ok? ==> Born() == old(sessionGeneration) + link.script(old(link.tick) + 1).bump
      ensures r.Ok? ==> (Born() == sessionGeneration <==> link.script(old(link.tick) + 5).bump == 0)
      ensures r.Ok? ==> boundAt == old(link.tick) + 5
      ensures |exchanges| > |old(exchanges)| ==> exchanges[|old(exchanges)|].protection.Unprotected?
    {
      var current := RequireCurrentSession();
      if current.Err? {
        r := Err(current.error);
      } else if ev2Session.None? {
        r := Err(Error(SessionInvalid));
      } else {
        var chain := ev2Session.value;
        ev2Session := None;
        if !keyResolves {
          ClearSessions();
          r := Err(Error(Crypto));
        } else {
          r := ProveNonFirst(chain, key, secret, timeout);
        }
      }
    }

    /** The handshake of a NonFirst authentication, with the running chain taken out of the entry. */
    method ProveNonFirst(chain: ChainedSession, key: nat, secret: nat, timeout: int)
      returns (r: Result<AuthenticationInfo>)
      requires Valid() && SessionsHeld() == 0 && native && chain.counter <= MAX_COUNTER && Continues(exchanges, chain)
      modifies this, link
      ensures Valid()
      ensures Extends(old(exchanges), exchanges, Request.Authenticate(Ev2NonFirst, key, secret, 0), timeout, false)
      ensures |exchanges| > |old(exchanges)| <==> link.script(old(link.tick) + 1).bump == 0
      ensures r.Ok? <==> Proves(old(link.tick))
      ensures if r.Ok? then
                && r.value == chain.information && SessionsHeld() == 1
                && ev2Session == Some(chain.(born := old(link.generation) + link.script(old(link.tick)).bump))
                && sessionGeneration == link.generation == Born() + link.script(old(link.tick) + 4).bump
                && boundAt == old(link.tick) + 4
              else
                && SessionsHeld() == 0
                && r.error == (if Kept(link, old(link.tick)) then Error(InvalidArgument)
                               else LeaseFailure(link, old(link.tick)))
                // An exception leaves the old binding behind.
                && sessionGeneration == if link.script(old(link.tick) + 1).bump == 0
                                           && link.script(old(link.tick) + 2).answer.Threw? then old(sessionGeneration)
                                        else 0
      ensures |exchanges| > |old(exchanges)| ==> exchanges[|old(exchanges)|].protection.Unprotected?
    {
      var answer := SendUnprotected(Request.Authenticate(Ev2NonFirst, key, secret, 0), timeout, false, Some(chain));
      if answer.Threw? {
        // The exception leaves the entry as it is: no session, but still the old binding.
        return Err(Error(Internal, Unknown));
      }
      if answer.Failed? || !answer.payload.sessionCreated {
        ClearSessions();
        return Err(FailureOf(answer));
      }
      Renew(chain);
      r := Ok(chain.information);
    }

    /** Install the renewed chain under the generation of its lease, and bind it. */
    method Renew(chain: ChainedSession)
      requires Valid() && SessionsHeld() == 0 && native && chain.counter <= MAX_COUNTER && Continues(exchanges, chain)
      modifies this`ev2Session, this`sessionGeneration, this`boundAt, link`tick, link`generation, link`picc
      ensures Valid() && SessionsHeld() == 1 && ev2Session == Some(chain.(born := old(link.generation)))
      ensures sessionGeneration == link.generation == old(link.generation) + link.script(old(link.tick)).bump
      ensures boundAt == old(link.tick)
    {
      ev2Session := Some(chain.(born := link.generation));
      Bind();
    }

    /** A command is admitted exactly under a current session of the profile it names. */
    method AdmitSecure(ev2Profile: bool) returns (r: Result<()>)
      requires Valid()
      modifies this`standardSession, this`ev2Session, this`isoSession, this`sessionGeneration
      modifies link`tick, link`generation, link`picc
      ensures Valid()
      ensures r.Ok? <==> old(HoldsFor(ev2Profile)) &&
                         old(sessionGeneration) == old(link.generation) + link.script(old(link.tick)).bump
      ensures r.Ok? ==>
                old(sessionGeneration) == sessionGeneration == link.generation && link.tick == old(link.tick) + 1
      ensures r.Ok? ==>
                && standardSession == old(standardSession) && ev2Session == old(ev2Session)
                && isoSession == old(isoSession)
      ensures r.Err? && old(HoldsFor(ev2Profile)) ==> SessionsHeld() == 0 && sessionGeneration == 0
      ensures r.Err? ==>
                if old(sessionGeneration) == 0 ||
                   old(sessionGeneration) != old(link.generation) + link.script(old(link.tick)).bump then
                  r.error == Error(SessionInvalid) && SessionsHeld() == 0 && sessionGeneration == 0
                else
                  && r.error == Error(if native then SessionInvalid else Unsupported)
                  && standardSession == old(standardSession) && ev2Session == old(ev2Session)
                  && isoSession == old(isoSession) && sessionGeneration == old(sessionGeneration)
    {
      var current := RequireCurrentSession();
      if current.Err? {
        return Err(current.error);
      }
      if !native {
        return Err(Error(Unsupported));
      }
      if !HoldsFor(ev2Profile) {
        return Err(Error(SessionInvalid));
      }
      r := Ok(());
    }

    /** A native exchange under the profile the caller names. */
    method ExchangeSecure(command: Command, ev2Profile: bool, invalidatesSession: bool, timeout: int)
      returns (r: Result<Payload>)
      requires Valid()
      modifies this, link
      ensures Valid() && Extends(old(exchanges), exchanges, Native(command), timeout, false)
      // A session protects a command exactly while its binding is the generation reported at admission.
      ensures |exchanges| > |old(exchanges)| <==>
              && old(HoldsFor(ev2Profile)) && link.script(old(link.tick) + 2).bump == 0
              && old(sessionGeneration) == old(link.generation) + link.script(old(link.tick)).bump
              && (ev2Profile ==> old(ev2Session).value.counter < 0xFFFF)
      ensures |exchanges| > |old(exchanges)| ==>
                var e := exchanges[|old(exchanges)|];
                && e.standing == Standing(old(Born()), old(sessionGeneration), boundAt, old(sessionGeneration))
                && e.leasedAt == old(link.tick) + 1 && e.request == Native(command)
                && e.protection == old(ProtectionBy(ev2Profile))
      ensures r.Ok? <==> |exchanges| > |old(exchanges)| && Kept(link, old(link.tick) + 1)
      ensures r.Ok? ==> SamePayload(r.value, link.script(old(link.tick) + 3).answer.payload)
      ensures r.Ok? ==> if ev2Profile then old(ev2Session).Some? else old(standardSession).Some?
      ensures r.Ok? && !invalidatesSession ==>
                && sessionGeneration == old(sessionGeneration)
                && if ev2Profile then ev2Session == Some(Counted(old(ev2Session).value))
                   else standardSession == old(standardSession)
      // A failure or a session-ending command drops session and binding; only an exception on the way leaves them.
      ensures old(HoldsFor(ev2Profile)) && (r.Err? || invalidatesSession) ==>
                if |exchanges| > |old(exchanges)| && link.script(old(link.tick) + 3).answer.Threw? then
                  r.Err? && HoldsFor(ev2Profile) && sessionGeneration == old(sessionGeneration)
                else SessionsHeld() == 0 && sessionGeneration == 0
      ensures r.Err? ==>
                r.error == if old(sessionGeneration) == 0 ||
                              old(sessionGeneration) != old(link.generation) + link.script(old(link.tick)).bump then
                             Error(SessionInvalid)
                           else if !old(HoldsFor(ev2Profile)) then Error(if native then SessionInvalid else Unsupported)
                           else if ev2Profile && old(ev2Session).value.counter == 0xFFFF then Error(CounterExhausted)
                           else LeaseFailure(link, old(link.tick) + 1)
    {
      var admitted := AdmitSecure(ev2Profile);
      if admitted.Err? {
        return Err(admitted.error);
      }
      var answer := ExchangeUnder(command, ev2Profile, timeout);
      r := ConcludeSecure(answer, ev2Profile, invalidatesSession);
    }

    /** An exception passes the statements that would drop the session. */
    method ConcludeSecure(answer: Answer, ev2Profile: bool, invalidatesSession: bool) returns (r: Result<Payload>)
      requires Valid() && HoldsFor(ev2Profile)
      modifies this`standardSession, this`ev2Session, this`sessionGeneration
      ensures Valid()
      ensures r == match answer
                   case Answered(payload) => Ok(payload)
                   case Failed(error) => Err(error)
                   case Threw => Err(Error(Internal, Unknown))
      ensures if answer.Threw? || (answer.Answered? && !invalidatesSession) then
                && standardSession == old(standardSession) && ev2Session == old(ev2Session)
                && sessionGeneration == old(sessionGeneration)
              else SessionsHeld() == 0 && sessionGeneration == 0
    {
      if answer.Threw? {
        return Err(Error(Internal, Unknown));
      }
      if answer.Failed? || invalidatesSession {
        DropNative(ev2Profile);
      }
      r := if answer.Failed? then Err(answer.error) else Ok(answer.payload);
    }

    predicate HoldsFor(ev2Profile: bool)
      reads this
    {
      if ev2Profile then ev2Session.Some? else standardSession.Some?
    }

    function ProtectionBy(ev2Profile: bool): Protection
      requires HoldsFor(ev2Profile)
      reads this
    {
      if ev2Profile then ByEv2(ev2Session.value.information, ev2Session.value.counter) else ByStandard
    }

    method DropNative(ev2Profile: bool)
      requires Valid() && HoldsFor(ev2Profile)
      modifies this`standardSession, this`ev2Session, this`sessionGeneration
      ensures Valid() && SessionsHeld() == 0 && sessionGeneration == 0
    {
      if ev2Profile {
        ev2Session := None;
      } else {
        standardSession := None;
      }
      sessionGeneration := 0;
    }

    /** Protect the command under a lease of its own; an EV2 session counts it. */
    method ExchangeUnder(command: Command, ev2Profile: bool, timeout: int) returns (answer: Answer)
      requires Valid() && sessionGeneration == link.generation && HoldsFor(ev2Profile)
      modifies this`exchanges, this`ev2Session, link
      ensures Valid() && HoldsFor(ev2Profile) && Extends(old(exchanges), exchanges, Native(command), timeout, false)
      ensures !ev2Profile ==> ev2Session == old(ev2Session)
      ensures |exchanges| > |old(exchanges)| <==>
              link.script(old(link.tick) + 1).bump == 0 && (ev2Profile ==> old(ev2Session).value.counter < MAX_COUNTER)
      ensures |exchanges| > |old(exchanges)| ==>
                var e := exchanges[|old(exchanges)|];
                && e.standing == Standing(old(Born()), sessionGeneration, boundAt, sessionGeneration)
                && e.leasedAt == old(link.tick) && e.request == Native(command)
                && e.protection == old(ProtectionBy(ev2Profile))
                && (ev2Profile ==> ev2Session == Some(Counted(old(ev2Session).value)))
      ensures answer.Answered? <==> |exchanges| > |old(exchanges)| && Kept(link, old(link.tick))
      ensures answer.Threw? <==> |exchanges| > |old(exchanges)| && link.script(old(link.tick) + 2).answer.Threw?
      ensures answer.Answered? ==> SamePayload(answer.payload, link.script(old(link.tick) + 2).answer.payload)
      ensures answer.Failed? ==>
                answer.error == if ev2Profile && old(ev2Session).value.counter == MAX_COUNTER then
                                  Error(CounterExhausted)
                                else LeaseFailure(link, old(link.tick))
    {
      if ev2Profile && ev2Session.value.counter == MAX_COUNTER {
        return Failed(Error(CounterExhausted));
      }
      ghost var leasedAt, leasedIn := link.tick, link.generation + link.script(link.tick).bump;
      ghost var standing := Standing(Born(), sessionGeneration, boundAt, link.generation);
      ghost var protection := ProtectionBy(ev2Profile);
      ghost var sent, heard := false, link.heard;
      answer, sent := LeasedExchange(link, Native(command), timeout);
      ghost var chain := ev2Session;
      if ev2Profile {
        ev2Session := Some(Counted(ev2Session.value));
      }
      if sent {
        ghost var e := Exchange(Native(command), timeout, protection, 1, standing, leasedAt, leasedIn);
        Note(e, heard, chain);
      }
    }

    /** An ISO command under the ISO session, which keeps its own generation and validity. */
    method ExchangeIsoSecure(command: IsoCommand, timeout: int) returns (r: Result<Payload>)
      requires Valid()
      modifies this, link
      ensures Valid() && Extends(old(exchanges), exchanges, Request.Iso(command), timeout, false)
      ensures command.resetsAuthentication ==>
                && r == Err(Error(Unsupported)) && exchanges == old(exchanges)
                && isoSession == old(isoSession) && sessionGeneration == old(sessionGeneration)
      ensures r.Ok? ==> isoSession == old(isoSession) && sessionGeneration == old(sessionGeneration)
      // Which error, and whether the session survives it.
      ensures r.Err? && !command.resetsAuthentication ==>
                var observed := old(link.generation) + link.script(old(link.tick)).bump;
                if old(sessionGeneration) == 0 || old(sessionGeneration) != observed then
                  r.error == Error(SessionInvalid) && SessionsHeld() == 0 && sessionGeneration == 0
                else if old(isoSession).None? then
                  r.error == Error(SessionInvalid) && sessionGeneration == old(sessionGeneration)
                else if old(isoSession).value.born != observed + link.script(old(link.tick) + 1).bump then
                  r.error == Error(CardRemoved) && SessionsHeld() == 0 && sessionGeneration == 0
                else
                  && r.error == (if Kept(link, old(link.tick) + 2) then Error(CardRemoved, Unknown)
                                 else LeaseFailure(link, old(link.tick) + 2))
                  && if r.error.outcome.NotSent? then
                       isoSession == old(isoSession) && sessionGeneration == old(sessionGeneration)
                     else SessionsHeld() == 0 && sessionGeneration == 0
      ensures |exchanges| > |old(exchanges)| <==>
              && !command.resetsAuthentication && old(isoSession).Some?
              && old(isoSession).value.born == old(sessionGeneration)
              && old(sessionGeneration) == old(link.generation) + link.script(old(link.tick)).bump
              && link.script(old(link.tick) + 1).bump == 0 && link.script(old(link.tick) + 3).bump == 0
      ensures |exchanges| > |old(exchanges)| ==> exchanges[|old(exchanges)|].protection == ByIso
      // A read compares the session's generation once more after its response has been verified.
      ensures r.Ok? <==> && |exchanges| > |old(exchanges)| && Kept(link, old(link.tick) + 2)
                         && (command.instruction in {0xB0, 0xB2} ==>
                               link.script(old(link.tick) + 2).bump == 0 && link.script(old(link.tick) + 6).bump == 0)
      ensures r.Ok? ==> SamePayload(r.value, link.script(old(link.tick) + 4).answer.payload)
    {
      if command.resetsAuthentication {
        return Err(Error(Unsupported));
      }
      var current := RequireCurrentSession();
      if current.Err? {
        return Err(current.error);
      }
      if !iso || isoSession.None? {
        return Err(Error(SessionInvalid));
      }
      r := ExecuteUnderIso(command, timeout);
    }

    /** The session compares its own generation before it sends and, for a read, once more when it has verified. */
    method ExecuteUnderIso(command: IsoCommand, timeout: int) returns (r: Result<Payload>)
      requires Valid() && isoSession.Some? && sessionGeneration == link.generation
      modifies this`exchanges, this`isoSession, this`sessionGeneration, link
      ensures Valid() && Extends(old(exchanges), exchanges, Request.Iso(command), timeout, false)
      ensures r.Ok? ==> isoSession == old(isoSession) && sessionGeneration == old(sessionGeneration)
      ensures r.Err? ==>
                if old(isoSession).value.born != old(link.generation) + link.script(old(link.tick)).bump then
                  r.error == Error(CardRemoved) && SessionsHeld() == 0 && sessionGeneration == 0
                else
                  && r.error == (if Kept(link, old(link.tick) + 1) then Error(CardRemoved, Unknown)
                                 else LeaseFailure(link, old(link.tick) + 1))
                  && if r.error.outcome.NotSent? then
                       isoSession == old(isoSession) && sessionGeneration == old(sessionGeneration)
                     else SessionsHeld() == 0 && sessionGeneration == 0
      ensures |exchanges| > |old(exchanges)| <==>
              && old(isoSession).value.born == old(sessionGeneration)
              && link.script(old(link.tick)).bump == 0 && link.script(old(link.tick) + 2).bump == 0
      ensures |exchanges| > |old(exchanges)| ==> exchanges[|old(exchanges)|].protection == ByIso
      ensures r.Ok? <==> && |exchanges| > |old(exchanges)| && Kept(link, old(link.tick) + 1)
                         && (Reads(command) ==>
                               link.script(old(link.tick) + 1).bump == 0 && link.script(old(link.tick) + 5).bump == 0)
      ensures r.Ok? ==> SamePayload(r.value, link.script(old(link.tick) + 3).answer.payload)
    {
      var seen := link.ReadGeneration();
      if isoSession.value.born != seen {
        DropIso();
        return Err(Error(CardRemoved));
      }
      var answer := ExchangeUnderIso(command, timeout);
      answer := Reverified(command, answer);
      if answer.Answered? {
        return Ok(answer.payload);
      }
      if answer.Threw? || !answer.error.outcome.NotSent? {
        DropIso();
      }
      r := Err(if answer.Failed? then answer.error else Error(Internal, Unknown));
    }

    /** A verified read counts only if the session's generation is still reported. */
    method Reverified(command: IsoCommand, answered: Answer) returns (answer: Answer)
      requires isoSession.Some?
      modifies link`tick, link`generation, link`picc
      ensures link.generation >= old(link.generation) && (!answered.Answered? ==> answer == answered)
      ensures answer.Answered? ==> answer == answered
      ensures answer.Answered? <==>
              && answered.Answered?
              && (Reads(command) ==> old(link.generation) + link.script(old(link.tick)).bump == isoSession.value.born)
      ensures answered.Answered? && !answer.Answered? ==> answer == Failed(Error(CardRemoved, Unknown))
    {
      answer := answered;
      if answered.Answered? && Reads(command) {
        var after := link.ReadGeneration();
        if isoSession.value.born != after {
          answer := Failed(Error(CardRemoved, Unknown));
        }
      }
    }

    method DropIso()
      requires Valid() && isoSession.Some?
      modifies this`isoSession, this`sessionGeneration
      ensures Valid() && SessionsHeld() == 0 && sessionGeneration == 0
    {
      isoSession := None;
      sessionGeneration := 0;
    }

    method ExchangeUnderIso(command: IsoCommand, timeout: int) returns (answer: Answer)
      requires Valid() && isoSession.Some? && sessionGeneration == link.generation
      modifies this`exchanges, link
      ensures Valid() && Extends(old(exchanges), exchanges, Request.Iso(command), timeout, false)
      ensures |exchanges| > |old(exchanges)| <==> link.script(old(link.tick) + 1).bump == 0
      ensures |exchanges| > |old(exchanges)| ==> exchanges[|old(exchanges)|].protection == ByIso
      ensures answer.Answered? <==> Kept(link, old(link.tick))
      ensures answer.Answered? ==> link.tick == old(link.tick) + 4
      ensures answer.Answered? ==> link.generation == old(link.generation) + link.script(old(link.tick)).bump
      ensures answer.Answered? ==> SamePayload(answer.payload, link.script(old(link.tick) + 2).answer.payload)
      ensures answer.Failed? ==> answer.error == LeaseFailure(link, old(link.tick))
      ensures answer.Threw? ==> LeaseFailure(link, old(link.tick)) == Error(Internal, Unknown)
    {
      ghost var leasedAt, leasedIn := link.tick, link.generation + link.script(link.tick).bump;
      ghost var standing := Standing(Born(), sessionGeneration, boundAt, link.generation);
      ghost var sent, heard := false, link.heard;
      answer, sent := LeasedExchange(link, Request.Iso(command), timeout);
      if sent {
        ghost var e := Exchange(Request.Iso(command), timeout, ByIso, 1, standing, leasedAt, leasedIn);
        Note(e, heard, None);
      }
    }

    /** Closing the handle erases every session. */
    method Close()
      requires Valid()
      modifies this
      ensures Valid() && SessionsHeld() == 0 && exchanges == old(exchanges)
    {
      ClearSessions();
    }

    /** Sessions are erased before the transport is reset, whatever the reset answers. */
    method Reset() returns (r: Result<()>)
      requires Valid()
      modifies this, link
      ensures Valid() && SessionsHeld() == 0 && exchanges == old(exchanges)
      ensures r.Ok? <==> link.resettable && link.script(old(link.tick)).answer.Answered?
    {
      ClearSessions();
      r := link.Reset();
    }
  }

  datatype RawCall =
    | PlainExchange(request: Request)
    | Authenticate(handshake: Request, keyAvailable: bool)
    | NonFirst(key: nat, secret: nat, keyResolves: bool)
    | Secure(command: Command, ev2Profile: bool, invalidatesSession: bool)
    | IsoSecure(iso: IsoCommand)
    | Reset
    | Close

  /** This is the exchange of the call: its command, under the protection it names. */
  predicate Sends(call: RawCall, e: Exchange) {
    match call
    case PlainExchange(request) => e.request == request && e.protection.Unprotected?
    case Authenticate(handshake, _) => e.request == handshake && e.protection.Unprotected?
    case NonFirst(key, secret, _) =>
      e.request == Request.Authenticate(Ev2NonFirst, key, secret, 0) && e.protection.Unprotected?
    case Secure(command, ev2Profile, _) =>
      e.request == Native(command) && if ev2Profile then e.protection.ByEv2? else e.protection.ByStandard?
    case IsoSecure(command) => e.request == Request.Iso(command) && e.protection.ByIso?
    case Reset => false
    case Close => false
  }

  predicate Begins(handshake: Request) {
    handshake.AuthenticateIso? || (handshake.Authenticate? && !handshake.family.Ev2NonFirst?)
  }

  /** Exactly when a call made now gets its command out. */
  ghost predicate GoesOut(entry: RawEntry, call: RawCall)
    reads entry, entry.link
  {
    var link, t := entry.link, entry.link.tick;
    var current := entry.sessionGeneration == link.generation + link.script(t).bump;
    match call
    case PlainExchange(request) => (if request.Iso? then entry.iso else entry.native) && link.script(t + 1).bump == 0
    case Authenticate(handshake, keyAvailable) =>
      && Begins(handshake) && (if handshake.AuthenticateIso? then entry.iso else entry.native)
      && keyAvailable && link.script(t + 1).bump == 0
    case NonFirst(_, _, keyResolves) =>
      entry.ev2Session.Some? && keyResolves && current && link.script(t + 2).bump == 0
    case Secure(_, ev2Profile, _) =>
      && current && link.script(t + 2).bump == 0
      && if ev2Profile then entry.ev2Session.Some? && entry.ev2Session.value.counter < 0xFFFF
         else entry.standardSession.Some?
    case IsoSecure(command) =>
      && !command.resetsAuthentication && entry.isoSession.Some? && current
      && entry.isoSession.value.born == entry.sessionGeneration
      && link.script(t + 1).bump == 0 && link.script(t + 3).bump == 0
    case Reset => false
    case Close => false
  }

  /** At most one exchange was added, and it is the call's. */
  predicate Grows(before: seq<Exchange>, after: seq<Exchange>, call: RawCall) {
    || after == before
    || (|after| == |before| + 1 && before == after[..|before|] && Sends(call, after[|before|]))
  }

  method PerformRaw(entry: RawEntry, call: RawCall, timeout: int)
    requires entry.Valid()
    modifies entry, entry.link
    ensures entry.Valid() && Grows(old(entry.exchanges), entry.exchanges, call)
    ensures |entry.exchanges| > |old(entry.exchanges)| <==> old(GoesOut(entry, call))
    ensures call.Reset? || call.Close? ==> entry.SessionsHeld() == 0
  {
    match call
    case PlainExchange(request) => var _ := entry.ExchangeUnprotected(request, timeout);
    case Authenticate(request, keyAvailable) =>
      if Begins(request) {
        var _ := entry.Authenticate(request, keyAvailable, timeout);
      }
    case NonFirst(key, secret, keyResolves) =>
      var _ := entry.AuthenticateNonFirst(key, secret, keyResolves, timeout);
    case Secure(command, ev2Profile, invalidatesSession) =>
      var _ := entry.ExchangeSecure(command, ev2Profile, invalidatesSession, timeout);
    case IsoSecure(command) => var _ := entry.ExchangeIsoSecure(command, timeout);
    case Reset => var _ := entry.Reset();
    case Close => entry.Close();
  }

  /** How many exchanges there were before each of the first `n` calls and after the last of them. */
  predicate Counts(marks: seq<nat>, exchanges: seq<Exchange>, calls: seq<RawCall>, n: nat) {
    && n <= |calls| && |marks| == n + 1 && marks[0] == 0 && marks[n] == |exchanges|
    && (forall m :: 0 <= m < n ==> marks[m] <= marks[m + 1] <= marks[m] + 1 && marks[m] <= |exchanges|)
    && (forall m :: 0 <= m < n && marks[m] < marks[m + 1] && marks[m] < |exchanges| ==>
          Sends(calls[m], exchanges[marks[m]]))
  }

  /** Where no change is ever reported, every unprotected exchange the entry supports goes out. */
  predicate Plainly(marks: seq<nat>, calls: seq<RawCall>, n: nat, native: bool, iso: bool)
    requires n <= |calls| && |marks| == n + 1
  {
    forall m :: 0 <= m < n && calls[m].PlainExchange? ==>
      (marks[m] < marks[m + 1] <==> if calls[m].request.Iso? then iso else native)
  }

  ghost predicate Steady(link: Reader) {
    forall n: nat :: link.script(n).bump == 0
  }

  lemma CountsNext(marks: seq<nat>, before: seq<Exchange>, after: seq<Exchange>, calls: seq<RawCall>, n: nat)
    requires Counts(marks, before, calls, n) && n < |calls| && Grows(before, after, calls[n])
    ensures Counts(marks + [|after|], after, calls, n + 1)
  {
    var next := marks + [|after|];
    forall m | 0 <= m < n + 1 && next[m] < next[m + 1] && next[m] < |after| ensures Sends(calls[m], after[next[m]]) {
      if m < n {
        assert marks[m + 1] <= |before|;
        assert after[marks[m]] == before[marks[m]];
      }
    }
  }

  /** No card change was reported while the session of this exchange was bound, or while its own lease was opened. */
  predicate Undisturbed(e: Exchange, link: Reader) {
    link.script(e.standing.boundAt).bump == 0 && link.script(e.leasedAt).bump == 0
  }

  /**
   Theorem: whatever calls are made on a raw entry and whatever the reader answers, its exchanges are what
   the reader heard; every one was allowed when it left; each EV2 chain keeps one identity and never
   repeats a counter; and a protected command goes out in the generation its session was born in exactly
   when no change was reported in the two windows the code leaves unchecked. Every exchange is that of
   one of the calls, in their order.
   */
  method RunRaw(link: Reader, native: bool, iso: bool, calls: seq<RawCall>, timeout: int)
    returns (entry: RawEntry, ghost marks: seq<nat>)
    requires link.generation >= 1
    modifies link
    ensures fresh(entry) && entry.link == link && entry.SessionsHeld() <= 1
    ensures old(link.heard) <= link.heard && |link.heard| == |old(link.heard)| + |entry.exchanges|
    ensures forall i :: 0 <= i < |entry.exchanges| ==>
              Matches(entry.exchanges[i], link.heard[|old(link.heard)| + i]) && Allowed(entry.exchanges[i], link)
    ensures ChainsOk(entry.exchanges)
    ensures forall i :: 0 <= i < |entry.exchanges| && !entry.exchanges[i].protection.Unprotected? ==>
              (entry.exchanges[i].standing.born == entry.exchanges[i].sentIn <==> Undisturbed(entry.exchanges[i], link))
    ensures Counts(marks, entry.exchanges, calls, |calls|)
    ensures Steady(link) ==> Plainly(marks, calls, |calls|, native, iso)
  {
    entry := new RawEntry(link, native, iso);
    marks := [0];
    for n := 0 to |calls|
      invariant fresh(entry) && entry.link == link && entry.Valid() && entry.prior == old(link.heard)
      invariant entry.native == native && entry.iso == iso && Counts(marks, entry.exchanges, calls, n)
      invariant Steady(link) ==> Plainly(marks, calls, n, native, iso)
    {
      ghost var before := entry.exchanges;
      PerformRaw(entry, calls[n], timeout);
      CountsNext(marks, before, entry.exchanges, calls, n);
      marks := marks + [|entry.exchanges|];
    }
  }

  /** An entry whose Standard AES authentication went smoothly, whatever was reported as it was bound. */
  method OpenAuthenticated(script: nat -> Reply) returns (entry: RawEntry)
    requires forall n :: 0 <= n < 4 ==> script(n) == QUIET
    ensures fresh(entry) && fresh(entry.link) && entry.Valid() && entry.link.script == script
    ensures entry.link.tick == 5 && entry.standardSession.Some? && entry.Born() == 1 && |entry.exchanges| == 1
    ensures entry.sessionGeneration == entry.link.generation == 1 + script(4).bump
  {
    var link := new Reader(script, map[], Picc([], []), true);
    entry := new RawEntry(link, true, true);
    assert script(0) == script(1) == script(2) == script(3) == QUIET;
    var authenticated := entry.Authenticate(Request.Authenticate(StandardFamily, 0, 0, 0), true, 1);
  }

  /**
   A card change reported as the session is bound: the session of generation one is bound to generation
   two, and a command goes out there under its keys.
   */
  method StaleBindingWitness(command: Command) returns (born: nat, ghost sent: Exchange)
    ensures born == 1 && sent.protection == ByStandard && sent.standing.born == 1 && sent.sentIn == 2
  {
    var entry := OpenAuthenticated((n: nat) => if n == 4 then QUIET.(bump := 1) else QUIET);
    born := entry.Born();
    var exchanged := entry.ExchangeSecure(command, false, false, 1);
    sent := entry.exchanges[1];
  }

  /**
   A card change reported as a protected command opens its lease: admitted in generation one, the command
   goes out and succeeds in generation two.
   */
  method LateLeaseWitness(command: Command) returns (ghost sent: Exchange, succeeded: bool)
    ensures sent.protection == ByStandard && sent.standing.observed == 1 && sent.sentIn == 2 && succeeded
  {
    var entry := OpenAuthenticated((n: nat) => if n == 6 then QUIET.(bump := 1) else QUIET);
    var exchanged := entry.ExchangeSecure(command, false, false, 1);
    sent, succeeded := entry.exchanges[1], exchanged.Ok?;
  }
}
