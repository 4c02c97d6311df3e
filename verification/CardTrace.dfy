/**
 What one managed card may do, told as the language of its lawful logs.

 A log lists, oldest first, every command handed to the channel, every call into key-resolution
 code, every change of tracked card state and every answer given to the caller. `Fold` computes
 the tracked state a log stands for; `Lawful` says which entry may follow which state. The
 imperative card of module `ManagedCard` is proved to write lawful logs only and to hold exactly
 the state its log folds to, so each theorem below speaks about every run of every operation.
 */
module CardTrace {
  import opened Results

  datatype AuthenticationInfo = AuthenticationInfo(
    transactionIdentifier: seq<bv8>, piccCapabilities: seq<bv8>, pcdCapabilities: seq<bv8>)

  datatype CommunicationMode = Plain | Mac | Full

  /** A checked native command; octets are naturals, `allowedKeys` is the key bit set. */
  datatype Command = Command(
    opcode: nat,
    header: seq<nat>,
    data: seq<nat>,
    requestMode: CommunicationMode,
    minimumResponse: nat,
    maximumResponse: nat,
    valid: bool := true,
    requiresAuthentication: bool := false,
    requiresEv2Session: bool := false,
    requiresPiccSelection: bool := false,
    currentAuthenticatedKey: Option<nat> := None,
    allowedKeys: set<nat> := {},
    invalidatesSession: bool := false)

  datatype IsoCommand = IsoCommand(instruction: nat, data: seq<nat>, resetsAuthentication: bool)

  datatype Family = StandardFamily | Ev2First | Ev2NonFirst

  /** Everything a managed card can ask of its channel; `secret` stands for the key a handshake proves knowledge of. */
  datatype Request =
    | Native(command: Command)
    | Discover(opcode: nat)
    | Select(application: nat)
    | Authenticate(family: Family, key: nat, secret: nat, capabilities: nat)
    | AuthenticateIso(reference: nat, secret: nat)
    | Iso(iso: IsoCommand)
    | DfNameFrame(first: bool)

  datatype Auth =
    | NoAuth
    | StandardAes(key: nat)
    | Ev2(key: nat, information: AuthenticationInfo, counter: nat)
    | IsoAes
  {
    predicate IsNative() {
      StandardAes? || Ev2?
    }

    function Key(): Option<nat> {
      if IsNative() then Some(key) else None
    }
  }

  datatype Life = Dead | Live(auth: Auth, pending: bool, selected: Option<nat>)

  /**
   `inFlight` is the command whose answer the next entry may report; `parked` remembers a
   pending local reset while an application selection is under way; `latest` is the generation of the
   latest hand-over since `generation` was captured.
   */
  datatype State = State(generation: nat, life: Life, inFlight: Option<Request>, parked: bool, latest: nat)

  /**
   An attempt carries the generation `seen` when the card last looked, and the `generation` of the lease
   under which the command was handed over; they differ by the changes reported in between.
   */
  datatype Entry =
    | Connected(generation: nat)
    | Attempt(request: Request, seen: nat, generation: nat, at: nat, timeout: int, until: nat)
    | KeyCall
    | SelectionBegun
    | PendingRestored
    | Selected(application: nat)
    | Authenticated(auth: Auth)
    | IsoSelected
    | SessionEnded
    | LocalReset
    | ResetDone(generation: nat)
    | Invalidated
    | Returned(failure: Option<Outcome>)

  type Log = seq<Entry>

  const MAX_COUNTER: nat := 0xFFFF
  const GET_DF_NAMES: nat := 0x6D

  const INITIAL: State := State(0, Dead, None, false, 0)

  function Fresh(generation: nat): State {
    State(generation, Live(NoAuth, false, Some(0)), None, false, generation)
  }

  /** The authentication left after a command was handed to the channel: EV2 counts it. */
  function Charged(auth: Auth, request: Request): Auth {
    if auth.Ev2? && request.Native? then auth.(counter := auth.counter + 1) else auth
  }

  function Advance(s: State, e: Entry): State {
    match e
    case Connected(g) => Fresh(g)
    case ResetDone(g) => Fresh(g)
    case Invalidated => s.(life := Dead, inFlight := None, parked := false)
    case _ =>
      if s.life.Dead? then s.(inFlight := None) else
      var Live(auth, pending, selected) := s.life;
      match e
      case Attempt(request, _, generation, _, _, _) =>
        s.(life := Live(Charged(auth, request), pending, selected), inFlight := Some(request), latest := generation)
      case SelectionBegun => Settled(s, Live(NoAuth, false, selected)).(parked := pending)
      case PendingRestored => Settled(s, Live(auth, true, selected))
      case Selected(a) => Settled(s, Live(NoAuth, false, Some(a)))
      case Authenticated(a) => Settled(s, Live(a, false, selected))
      case IsoSelected => Settled(s, Live(NoAuth, false, None))
      case SessionEnded => Settled(s, Live(NoAuth, pending, selected))
      case LocalReset => Settled(s, Live(NoAuth, pending || !auth.NoAuth?, selected))
      case _ => s.(inFlight := None)
  }

  /** Nothing is under way any more. */
  function Settled(s: State, life: Life): State {
    s.(life := life, inFlight := None, parked := false)
  }

  function Fold(log: Log): State {
    if log == [] then INITIAL else Advance(Fold(log[..|log| - 1]), log[|log| - 1])
  }

  /** The state and authority checks a native command must pass before it is handed to the channel. */
  predicate Gates(life: Life, c: Command) {
    && life.Live?
    && !life.pending
    && !life.auth.IsoAes?
    && c.valid
    && c.opcode != GET_DF_NAMES
    && (c.requiresAuthentication ==> life.auth.IsNative())
    && (c.requiresEv2Session ==> life.auth.Ev2?)
    && (c.requiresPiccSelection ==> life.selected == Some(0))
    && (c.currentAuthenticatedKey.Some? ==> c.currentAuthenticatedKey == life.auth.Key())
    && (c.allowedKeys != {} ==> life.auth.IsNative() && life.auth.key in c.allowedKeys)
  }

  /** A command that passed its gates also needs a counter value when an EV2 session protects it. */
  predicate Permits(life: Life, c: Command) {
    Gates(life, c) && (life.auth.Ev2? ==> life.auth.counter < MAX_COUNTER)
  }

  predicate Admissible(life: Life, request: Request) {
    && life.Live?
    && match request
       case Native(c) => Permits(life, c)
       case Discover(_) => life.auth.NoAuth? && !life.pending
       case Select(_) => life.auth.NoAuth? && !life.pending
       case Authenticate(family, _, _, _) => family.Ev2NonFirst? ==> life.auth.Ev2?
       case AuthenticateIso(_, _) => !life.pending
       case Iso(c) => c.resetsAuthentication || (!life.pending && !life.auth.IsNative())
       case DfNameFrame(_) => life.auth.NoAuth? && !life.pending
  }

  /** The session an authentication of `request` may install when the state was `s`. */
  predicate Earned(s: State, auth: Auth)
    requires s.life.Live?
  {
    match s.inFlight
    case Some(Authenticate(StandardFamily, key, _, _)) => auth == StandardAes(key)
    case Some(Authenticate(Ev2First, key, _, _)) => auth.Ev2? && auth.key == key && auth.counter == 0
    case Some(Authenticate(Ev2NonFirst, key, _, _)) => s.life.auth.Ev2? && auth == s.life.auth.(key := key)
    case Some(AuthenticateIso(_, _)) => auth.IsoAes?
    case _ => false
  }

  predicate EntryOk(s: State, e: Entry) {
    match e
    case Connected(g) => s == INITIAL && g > 0
    case Attempt(request, seen, g, _, _, _) =>
      seen == s.generation <= g && s.latest <= g && Admissible(s.life, request)
    case KeyCall => s.life.Live?
    case SelectionBegun => s.generation > 0
    case PendingRestored => s.life.Live? && s.parked && s.life.auth.NoAuth?
    case Selected(a) => s.life.Live? && s.inFlight == Some(Select(a))
    case Authenticated(auth) => s.life.Live? && Earned(s, auth)
    case IsoSelected =>
      s.life.Live? && s.inFlight.Some? && s.inFlight.value.Iso? && s.inFlight.value.iso.resetsAuthentication
    case SessionEnded =>
      s.life.Live? && s.inFlight.Some? && s.inFlight.value.Native? && s.inFlight.value.command.invalidatesSession
    case LocalReset => s.generation > 0
    case ResetDone(g) => s.generation > 0 && s.life.Dead? && g > s.generation
    case Invalidated => s.generation > 0
    case Returned(failure) => s.generation > 0 && (failure == Some(Unknown) ==> s.life.Dead?)
  }

  predicate Lawful(log: Log) {
    log == [] || (Lawful(log[..|log| - 1]) && EntryOk(Fold(log[..|log| - 1]), log[|log| - 1]))
  }

  /** Entries about something done outside the card: a command handed over or application code asked for a key. */
  predicate Active(e: Entry) {
    e.Attempt? || e.KeyCall?
  }

  /** What a log says was done outside the card, oldest first. */
  function Actions(log: Log): Log {
    if log == [] then []
    else
      var e := log[|log| - 1];
      Actions(log[..|log| - 1]) + (if Active(e) then [e] else [])
  }

  /** What a longer log says was done beyond a shorter one is noted beyond the shorter one. */
  lemma {:induction false} NewActionsAreNew(before: Log, after: Log)
    requires before <= after
    ensures Actions(before) <= Actions(after)
    ensures forall k :: |Actions(before)| <= k < |Actions(after)| ==>
              exists j :: |before| <= j < |after| && after[j] == Actions(after)[k]
    decreases |after|
  {
    if before != after {
      var n := |after| - 1;
      NewActionsAreNew(before, after[..n]);
      forall k | |Actions(before)| <= k < |Actions(after)|
        ensures exists j :: |before| <= j < |after| && after[j] == Actions(after)[k]
      {
        if k < |Actions(after[..n])| {
          var j :| |before| <= j < n && after[..n][j] == Actions(after[..n])[k];
          assert after[j] == Actions(after)[k];
        } else {
          assert after[n] == Actions(after)[k];
        }
      }
    }
  }

  lemma {:induction false} AnAttemptIsAnAction(before: Log, after: Log, j: nat)
    requires before <= after && |before| <= j && AttemptAt(after, j)
    ensures |Actions(before)| < |Actions(after)|
    decreases |after|
  {
    var n := |after| - 1;
    NewActionsAreNew(before, after[..n]);
    if j < n {
      AnAttemptIsAnAction(before, after[..n], j);
    }
  }

  lemma Append(log: Log, e: Entry)
    ensures Fold(log + [e]) == Advance(Fold(log), e)
    ensures Actions(log + [e]) == Actions(log) + (if Active(e) then [e] else [])
    ensures Lawful(log + [e]) <==> Lawful(log) && EntryOk(Fold(log), e)
  {
    assert (log + [e])[..|log|] == log;
  }

  lemma {:induction false} LawfulPrefix(log: Log, n: nat)
    requires Lawful(log) && n <= |log|
    ensures Lawful(log[..n])
  {
    if n == |log| {
      assert log[..n] == log;
    } else {
      var front := log[..|log| - 1];
      LawfulPrefix(front, n);
      assert front[..n] == log[..n];
    }
  }

  lemma {:induction false} Grown(before: Log, e: Entry, after: Log)
    requires after == before + [e] && Lawful(after)
    ensures EntryOk(Fold(before), e) && Fold(after) == Advance(Fold(before), e)
    ensures Actions(after) == Actions(before) + (if Active(e) then [e] else [])
  {
    Append(before, e);
  }

  lemma {:induction false} PrefixLawful(log: Log, n: nat)
    requires Lawful(log) && n <= |log|
    ensures Lawful(log[..n])
    ensures n < |log| ==> EntryOk(Fold(log[..n]), log[n]) && Fold(log[..n + 1]) == Advance(Fold(log[..n]), log[n])
    ensures n < |log| ==> Actions(log[..n + 1]) == Actions(log[..n]) + (if Active(log[n]) then [log[n]] else [])
  {
    LawfulPrefix(log, n);
    if n < |log| {
      LawfulPrefix(log, n + 1);
      assert log[..n + 1] == log[..n] + [log[n]];
      Grown(log[..n], log[n], log[..n + 1]);
    }
  }

  /* ------------------------------------------------------------------------------------------
     The concrete card a state stands for
     ------------------------------------------------------------------------------------------ */

  datatype StandardSession = StandardSession(born: nat)
  datatype Ev2Session = Ev2Session(born: nat, information: AuthenticationInfo, counter: nat)
  datatype IsoSession = IsoSession(born: nat)

  /** The fields of a managed card. */
  datatype Snapshot = Snapshot(
    usable: bool,
    standardSession: Option<StandardSession>,
    ev2Session: Option<Ev2Session>,
    isoSession: Option<IsoSession>,
    authenticatedKey: Option<nat>,
    authenticationResetPending: bool,
    selectedApplication: Option<nat>,
    generation: nat)
  {
    predicate HasNativeSession() {
      standardSession.Some? || ev2Session.Some?
    }

    predicate HasSession() {
      HasNativeSession() || isoSession.Some?
    }
  }

  function Concretize(generation: nat, life: Life): Snapshot {
    match life
    case Dead => Snapshot(false, None, None, None, None, false, None, generation)
    case Live(auth, pending, selected) =>
      Snapshot(
        true,
        if auth.StandardAes? then Some(StandardSession(generation)) else None,
        if auth.Ev2? then Some(Ev2Session(generation, auth.information, auth.counter)) else None,
        if auth.IsoAes? then Some(IsoSession(generation)) else None,
        auth.Key(), pending, selected, generation)
  }

  /** At most one session, a key exactly with a native session, nothing on an unusable card. */
  predicate Exclusive(s: Snapshot) {
    && !(s.standardSession.Some? && s.ev2Session.Some?)
    && !(s.HasNativeSession() && s.isoSession.Some?)
    && (s.authenticatedKey.Some? <==> s.HasNativeSession())
    && (s.authenticationResetPending ==> !s.HasSession())
    && (!s.usable ==>
          !s.HasSession() && s.authenticatedKey.None? && !s.authenticationResetPending && s.selectedApplication.None?)
    && (s.standardSession.Some? ==> s.standardSession.value.born == s.generation)
    && (s.ev2Session.Some? ==> s.ev2Session.value.born == s.generation && s.ev2Session.value.counter <= MAX_COUNTER)
    && (s.isoSession.Some? ==> s.isoSession.value.born == s.generation)
  }

  lemma {:induction false} PendingHasNoSession(log: Log)
    requires Lawful(log)
    ensures Fold(log).life.Live? && Fold(log).life.pending ==> Fold(log).life.auth.NoAuth?
    ensures Fold(log).life.Live? && Fold(log).life.auth.Ev2? ==> Fold(log).life.auth.counter <= MAX_COUNTER
  {
    if log != [] {
      PendingHasNoSession(log[..|log| - 1]);
    }
  }

  /** Theorem: in every reachable state the three session slots, key, pending flag and selection agree. */
  lemma {:induction false} ReachableCardIsExclusive(log: Log)
    requires Lawful(log)
    ensures Exclusive(Concretize(Fold(log).generation, Fold(log).life))
  {
    PendingHasNoSession(log);
  }

  /* ------------------------------------------------------------------------------------------
     Quiescence after uncertainty
     ------------------------------------------------------------------------------------------ */

  /** From a dead state nothing but a completed reset revives the card. */
  lemma {:induction false} DeadStaysDead(log: Log, i: nat, j: nat)
    requires Lawful(log) && i <= j <= |log|
    requires Fold(log[..i]).life.Dead? && Fold(log[..i]).generation > 0
    requires forall k :: i <= k < j ==> !log[k].ResetDone?
    ensures Fold(log[..j]).life.Dead? && Fold(log[..j]).generation == Fold(log[..i]).generation
    decreases j
  {
    if i < j {
      DeadStaysDead(log, i, j - 1);
      PrefixLawful(log, j - 1);
    }
  }

  /** Theorem: after an uncertain answer no frame and no key call until a reset succeeds. */
  lemma QuiescentAfterUncertainty(log: Log, i: nat, j: nat)
    requires Lawful(log) && i < j < |log|
    requires log[i] == Returned(Some(Unknown)) || log[i].Invalidated?
    requires forall k :: i < k < j ==> !log[k].ResetDone?
    ensures !Active(log[j])
    ensures !log[j].Selected? && !log[j].Authenticated? && !log[j].IsoSelected?
  {
    PrefixLawful(log, i);
    PrefixLawful(log, i + 1);
    DeadStaysDead(log, i + 1, j);
    PrefixLawful(log, j);
  }

  lemma DeadStep(s: State, e: Entry)
    requires EntryOk(s, e) && s.life.Dead? && s.generation > 0 && Advance(s, e).generation == s.generation
    ensures Advance(s, e).life.Dead? && !Active(e)
  {
  }

  /** So nothing is done outside the card between two points of one generation once it is dead. */
  lemma {:induction false} DeadIsSilent(log: Log, i: nat, j: nat)
    requires Lawful(log) && 0 < i <= j <= |log| && Fold(log[..i]).life.Dead?
    requires Fold(log[..i]).generation == Fold(log[..j]).generation > 0
    ensures Fold(log[..j]).life.Dead? && Actions(log[..j]) == Actions(log[..i])
    decreases j
  {
    if i < j {
      GenerationNeverFalls(log, i, j - 1);
      GenerationNeverFalls(log, j - 1, j);
      DeadIsSilent(log, i, j - 1);
      PrefixLawful(log, j - 1);
      DeadStep(Fold(log[..j - 1]), log[j - 1]);
    }
  }

  /* ------------------------------------------------------------------------------------------
     History agreement: tracked authentication and selection are what the log last said
     ------------------------------------------------------------------------------------------ */

  predicate TouchesAuth(e: Entry) {
    e.Connected? || e.ResetDone? || e.Invalidated? || e.SelectionBegun? || e.Selected? ||
    e.Authenticated? || e.IsoSelected? || e.SessionEnded? || e.LocalReset?
  }

  predicate TouchesSelection(e: Entry) {
    e.Connected? || e.ResetDone? || e.Invalidated? || e.Selected? || e.IsoSelected?
  }

  /** Entry `i` installed a native session for `key` directly after that authentication was sent. */
  predicate InstallsKey(log: Log, i: nat, key: nat) {
    && 0 < i < |log|
    && log[i].Authenticated? && log[i].auth.Key() == Some(key)
    && log[i - 1].Attempt? && log[i - 1].request.Authenticate? && log[i - 1].request.key == key
  }

  lemma {:induction false} InFlightWasJustSent(log: Log)
    requires Fold(log).inFlight.Some?
    ensures log != [] && log[|log| - 1].Attempt? && log[|log| - 1].request == Fold(log).inFlight.value
  {
  }

  /** The tracked key was installed by the last entry that touched authentication. */
  lemma {:induction false} TrackedKeyWasInstalled(log: Log) returns (i: nat)
    requires Lawful(log) && Fold(log).life.Live? && Fold(log).life.auth.IsNative()
    ensures i < |log| && InstallsKey(log, i, Fold(log).life.auth.key)
    ensures log[i].auth.Ev2? <==> Fold(log).life.auth.Ev2?
    ensures forall k :: i < k < |log| ==> !TouchesAuth(log[k])
  {
    var n := |log| - 1;
    var front := log[..n];
    if log[n].Authenticated? {
      InFlightWasJustSent(front);
      i := n;
    } else {
      i := TrackedKeyWasInstalled(front);
    }
  }

  /** The tracked selection was set by the last entry that touched selection. */
  lemma {:induction false} TrackedSelectionWasMade(log: Log) returns (i: nat)
    requires Lawful(log) && Fold(log).life.Live? && Fold(log).life.selected.Some?
    ensures i < |log|
    ensures var a := Fold(log).life.selected.value;
            log[i] == Selected(a) || (a == 0 && (log[i].Connected? || log[i].ResetDone?))
    ensures log[i].Selected? ==>
              i > 0 && log[i - 1].Attempt? && log[i - 1].request == Select(Fold(log).life.selected.value)
    ensures forall k :: i < k < |log| ==> !TouchesSelection(log[k])
  {
    var n := |log| - 1;
    var front := log[..n];
    if log[n].Connected? || log[n].ResetDone? {
      i := n;
    } else if log[n].Selected? {
      InFlightWasJustSent(front);
      i := n;
    } else {
      i := TrackedSelectionWasMade(front);
    }
  }

  ghost predicate KeyJustified(log: Log, j: nat, key: nat)
    requires j <= |log|
  {
    exists i :: 0 <= i < j && InstallsKey(log, i, key) && forall k :: i < k < j ==> !TouchesAuth(log[k])
  }

  /** An EV2 session was installed and nothing since has touched authentication. */
  ghost predicate Ev2Justified(log: Log, j: nat)
    requires j <= |log|
  {
    exists i :: 0 <= i < j && log[i].Authenticated? && log[i].auth.Ev2? &&
                forall k :: i < k < j ==> !TouchesAuth(log[k])
  }

  ghost predicate PiccSelectionJustified(log: Log, j: nat)
    requires j <= |log|
  {
    exists i :: 0 <= i < j && (log[i] == Selected(0) || log[i].Connected? || log[i].ResetDone?) &&
                forall k :: i < k < j ==> !TouchesSelection(log[k])
  }

  /**
   Theorem: a command that demands a key, an EV2 session or the PICC selection is handed to the
   channel only when an earlier entry established it and nothing since has taken it away.
   */
  lemma DemandsAreJustified(log: Log, j: nat)
    requires Lawful(log) && j < |log| && log[j].Attempt? && log[j].request.Native?
    ensures var c := log[j].request.command;
            && (c.currentAuthenticatedKey.Some? ==> KeyJustified(log, j, c.currentAuthenticatedKey.value))
            && (c.allowedKeys != {} ==> exists key :: key in c.allowedKeys && KeyJustified(log, j, key))
            && (c.requiresAuthentication ==> exists key :: KeyJustified(log, j, key))
            && (c.requiresEv2Session ==> Ev2Justified(log, j))
            && (c.requiresPiccSelection ==> PiccSelectionJustified(log, j))
  {
    PrefixLawful(log, j);
    var before := log[..j];
    var c := log[j].request.command;
    var life := Fold(before).life;
    if life.auth.IsNative() {
      var i := TrackedKeyWasInstalled(before);
      assert InstallsKey(log, i, life.auth.key);
      assert forall k :: i < k < j ==> log[k] == before[k];
      assert KeyJustified(log, j, life.auth.key);
      assert life.auth.Ev2? ==> log[i].auth.Ev2? && Ev2Justified(log, j);
    }
    if c.requiresPiccSelection {
      var i := TrackedSelectionWasMade(before);
      assert log[i] == before[i];
      assert forall k :: i < k < j ==> log[k] == before[k];
    }
  }

  /* ------------------------------------------------------------------------------------------
     The EV2 chain: one identity, one counter that never repeats
     ------------------------------------------------------------------------------------------ */

  /** Entry `k` starts a new EV2 chain. */
  predicate StartsChain(log: Log, k: nat) {
    && 0 < k < |log|
    && log[k].Authenticated? && log[k].auth.Ev2?
    && log[k - 1].Attempt? && log[k - 1].request.Authenticate? && log[k - 1].request.family.Ev2First?
  }

  function NativeAttempts(log: Log, i: nat, j: nat): nat
    requires i <= j <= |log|
    decreases j
  {
    if i == j then 0
    else NativeAttempts(log, i, j - 1) +
         (if log[j - 1].Attempt? && log[j - 1].request.Native? then 1 else 0)
  }

  /** One entry that leaves an EV2 session continues the one before it, unless it installs that of a First. */
  lemma ChainStep(s: State, e: Entry)
    requires EntryOk(s, e) && Advance(s, e).life.Live? && Advance(s, e).life.auth.Ev2?
    requires e.Authenticated? ==>
              s.inFlight.Some? && s.inFlight.value.Authenticate? && !s.inFlight.value.family.Ev2First?
    ensures s.life.Live? && s.life.auth.Ev2? && Advance(s, e).life.auth.information == s.life.auth.information
    ensures Advance(s, e).life.auth.counter == s.life.auth.counter + (if e.Attempt? && e.request.Native? then 1 else 0)
  {
  }

  /**
   Theorem: between two points of one EV2 chain (commands, NonFirst authentications, failures,
   anything but another First), the transaction identity is that of the First, and the counter
   has advanced by exactly the number of commands sent.
   */
  lemma {:induction false} Ev2ChainKeepsIdentityAndCounts(log: Log, i: nat, j: nat)
    requires Lawful(log) && i <= j <= |log|
    requires Fold(log[..i]).life.Live? && Fold(log[..i]).life.auth.Ev2?
    requires Fold(log[..j]).life.Live? && Fold(log[..j]).life.auth.Ev2?
    requires forall k :: i <= k < j ==> !StartsChain(log, k)
    ensures var a, b := Fold(log[..i]).life.auth, Fold(log[..j]).life.auth;
            b.information == a.information && b.counter == a.counter + NativeAttempts(log, i, j)
    decreases j
  {
    if i < j {
      var n := j - 1;
      PrefixLawful(log, n);
      if log[n].Authenticated? {
        InFlightWasJustSent(log[..n]);
        assert !StartsChain(log, n);
      }
      ChainStep(Fold(log[..n]), log[n]);
      Ev2ChainKeepsIdentityAndCounts(log, i, n);
    }
  }

  /** Theorem: no two commands of one chain are protected under the same counter value. */
  lemma Ev2CounterNeverRepeats(log: Log, i: nat, j: nat)
    requires Lawful(log) && i < j < |log|
    requires log[i].Attempt? && log[i].request.Native? && Fold(log[..i]).life.Live? && Fold(log[..i]).life.auth.Ev2?
    requires log[j].Attempt? && log[j].request.Native? && Fold(log[..j]).life.Live? && Fold(log[..j]).life.auth.Ev2?
    requires forall k :: i <= k < j ==> !StartsChain(log, k)
    ensures Fold(log[..i]).life.auth.counter < Fold(log[..j]).life.auth.counter < MAX_COUNTER
  {
    Ev2ChainKeepsIdentityAndCounts(log, i, j);
    NativeAttemptsCountsFirst(log, i, j);
    PrefixLawful(log, j);
  }

  lemma {:induction false} NativeAttemptsCountsFirst(log: Log, i: nat, j: nat)
    requires i < j <= |log| && log[i].Attempt? && log[i].request.Native?
    ensures NativeAttempts(log, i, j) >= 1
    decreases j
  {
    if i + 1 < j {
      NativeAttemptsCountsFirst(log, i, j - 1);
    }
  }

  /* ------------------------------------------------------------------------------------------
     Generation safety
     ------------------------------------------------------------------------------------------ */

  /** Entry `i` is the last before `j` that captured a generation, and it captured this one. */
  predicate Captures(log: Log, i: nat, j: nat, generation: nat)
    requires j <= |log|
  {
    && i < j
    && (log[i] == Connected(generation) || log[i] == ResetDone(generation))
    && forall k :: i < k < j ==> !log[k].Connected? && !log[k].ResetDone?
  }

  lemma {:induction false} LastCapture(log: Log, j: nat) returns (i: nat)
    requires Lawful(log) && 0 < j <= |log|
    ensures Captures(log, i, j, Fold(log[..j]).generation)
    decreases j
  {
    var n := j - 1;
    PrefixLawful(log, n);
    if log[n].Connected? || log[n].ResetDone? {
      i := n;
    } else {
      assert log[..0] == [];
      i := LastCapture(log, n);
    }
  }

  /**
   Theorem: before every hand-over the card last looked in the generation captured at connect or the last
   reset, and the hand-over is in no earlier one. So it is in the captured generation exactly when no
   change was reported between the look and the opening of its lease.
   */
  lemma HandOverFollowsTheCapture(log: Log, j: nat) returns (i: nat)
    requires Lawful(log) && j < |log| && log[j].Attempt?
    ensures Captures(log, i, j, log[j].seen) && log[j].seen <= log[j].generation
  {
    PrefixLawful(log, j);
    assert log[..0] == [];
    i := LastCapture(log, j);
  }

  /** Theorem: the captured generation never falls, so a session's generation never comes back. */
  lemma {:induction false} GenerationNeverFalls(log: Log, i: nat, j: nat)
    requires Lawful(log) && i <= j <= |log|
    ensures Fold(log[..i]).generation <= Fold(log[..j]).generation
    decreases j
  {
    if i < j {
      GenerationNeverFalls(log, i, j - 1);
      PrefixLawful(log, j - 1);
    }
  }

  /** Looked for in this generation, and handed over there or later, but not after `latest`. */
  predicate DatedFrom(e: Entry, generation: nat, latest: nat) {
    e.Attempt? ==> e.seen == generation <= e.generation <= latest
  }

  lemma StepKeepsDates(s: State, e: Entry)
    requires EntryOk(s, e) && Advance(s, e).generation == s.generation
    ensures s.latest <= Advance(s, e).latest && DatedFrom(e, s.generation, Advance(s, e).latest)
  {
  }

  lemma OneMoreAction(first: Log, before: Log, e: Entry, after: Log, generation: nat, latest: nat, latest': nat)
    requires first <= before && after == before + (if Active(e) then [e] else [])
    requires latest <= latest' && DatedFrom(e, generation, latest')
    requires forall k :: |first| <= k < |before| ==> DatedFrom(before[k], generation, latest)
    ensures first <= after && forall k :: |first| <= k < |after| ==> DatedFrom(after[k], generation, latest')
  {
  }

  /**
   Theorem: whatever is handed over between two points of one captured generation was last looked for in
   that generation, and is dated between it and the latest hand-over.
   */
  lemma {:induction false} ActionsFollowTheCapture(log: Log, i: nat, j: nat)
    requires Lawful(log) && i <= j <= |log|
    requires Fold(log[..i]).generation == Fold(log[..j]).generation
    ensures Actions(log[..i]) <= Actions(log[..j])
    ensures forall k :: |Actions(log[..i])| <= k < |Actions(log[..j])| ==>
              DatedFrom(Actions(log[..j])[k], Fold(log[..i]).generation, Fold(log[..j]).latest)
    decreases j
  {
    if i < j {
      var s, e := Fold(log[..j - 1]), log[j - 1];
      GenerationNeverFalls(log, i, j - 1);
      GenerationNeverFalls(log, j - 1, j);
      ActionsFollowTheCapture(log, i, j - 1);
      PrefixLawful(log, j - 1);
      StepKeepsDates(s, e);
      var first, before, after := Actions(log[..i]), Actions(log[..j - 1]), Actions(log[..j]);
      OneMoreAction(first, before, e, after, s.generation, s.latest, Advance(s, e).latest);
    }
  }

  predicate AttemptAt(log: Log, i: nat) {
    i < |log| && log[i].Attempt?
  }

  /** At most one command was handed over between the two logs: this one, with this timeout, in this generation. */
  predicate LeasedIn(before: Log, after: Log, request: Request, timeout: int, generation: nat) {
    && (forall k :: |before| <= k < |after| && after[k].Attempt? ==>
          after[k].request == request && after[k].timeout == timeout && after[k].generation == generation)
    && (forall j, k :: |before| <= j < k < |after| ==> !after[j].Attempt? || !after[k].Attempt?)
  }
}
