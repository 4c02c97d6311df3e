/** The state of one managed card and the steps that change it without talking to the card. */
module ManagedCard {
  import opened Results
  import opened CardTrace
  import opened Reader

  /** The card without authentication, and with a reset pending if it had any. */
  function LocallyReset(s: Snapshot): Snapshot {
    s.(standardSession := None, ev2Session := None, isoSession := None, authenticatedKey := None,
       authenticationResetPending := s.authenticationResetPending || s.HasSession())
  }

  lemma LocalResetMeans(s: State)
    ensures Advance(s, LocalReset).generation == s.generation
    ensures Concretize(s.generation, Advance(s, LocalReset).life) == LocallyReset(Concretize(s.generation, s.life))
  {
  }

  predicate Unfolds(b: bool) {
    b
  }

  /**
   The log is lawful, stands for this state and says that this was done. Guarded, so that it is looked into
   only where a log grows or a theorem about logs is applied.
   */
  ghost predicate Accounted(log: Log, state: State, done: Log) {
    forall b: bool :: Unfolds(b) ==> Lawful(log) && state == Fold(log) && done == Actions(log)
  }

  lemma AccountedNext(log: Log, state: State, done: Log, e: Entry)
    requires Accounted(log, state, done) && EntryOk(state, e)
    ensures Accounted(log + [e], Advance(state, e), done + (if Active(e) then [e] else []))
  {
    assert Unfolds(true);
    Append(log, e);
  }

  lemma NothingAccounted()
    ensures Accounted([], INITIAL, [])
  {
  }

  class Card {
    const link: Reader
    var standardSession: Option<StandardSession>
    var ev2Session: Option<Ev2Session>
    var authenticatedKey: Option<nat>
    var isoSession: Option<IsoSession>
    var generation: nat
    var usable: bool
    var authenticationResetPending: bool
    var selectedApplication: Option<nat>
    ghost const prior: Log
    ghost var log: Log
    ghost var state: State
    ghost var done: Log

    function Snap(): Snapshot
      reads this
    {
      Snapshot(usable, standardSession, ev2Session, isoSession, authenticatedKey,
               authenticationResetPending, selectedApplication, generation)
    }

    ghost function Now(): State
      reads this
    {
      state
    }

    ghost predicate Tracked()
      reads this, link
    {
      && Accounted(log, state, done) && link.heard == prior + done
      && 1 <= generation == state.generation <= link.generation && state.latest <= link.generation
    }

    /** What every lawful log says of the state it stands for. */
    lemma StateIsSound()
      requires Tracked()
      ensures Lawful(log) && state == Fold(log) && done == Actions(log)
      ensures state.life.Live? && state.life.pending ==> state.life.auth.NoAuth?
      ensures state.life.Live? && state.life.auth.Ev2? ==> state.life.auth.counter <= MAX_COUNTER
    {
      assert Unfolds(true);
      PendingHasNoSession(log);
    }

    /** The card holds exactly the state of its lawful log. */
    ghost predicate Valid()
      reads this, link
    {
      Tracked() && Snap() == Concretize(Now().generation, Now().life)
    }

    constructor (link: Reader)
      requires link.generation >= 1
      ensures Valid() && this.link == link && generation == link.generation
      ensures log == [Connected(link.generation)] && prior == link.heard && Now() == Fresh(link.generation)
    {
      this.link := link;
      prior := link.heard;
      standardSession, ev2Session, isoSession, authenticatedKey := None, None, None, None;
      generation := link.generation;
      usable, authenticationResetPending, selectedApplication := true, false, Some(0);
      NothingAccounted();
      AccountedNext([], INITIAL, [], Connected(link.generation));
      log, state, done := [] + [Connected(link.generation)], Fresh(link.generation), [] + [];
    }

    /** Note a change of tracked state or an answer given; actions are noted where they are done. */
    ghost method Record(e: Entry)
      requires Accounted(log, state, done) && EntryOk(state, e) && !Active(e)
      modifies this`log, this`state
      ensures log == old(log) + [e] && state == Advance(old(state), e) && Accounted(log, state, done)
    {
      AccountedNext(log, state, done, e);
      log, state := log + [e], Advance(state, e);
    }

    /** Hand one command to the channel under a lease that is open already, and note it. */
    method Hand(request: Request, timeout: int) returns (answer: Answer)
      requires Tracked() && Admissible(Now().life, request) && link.seen == generation
      modifies this`log, this`state, this`done, link`tick, link`generation, link`now, link`picc, link`heard
      ensures Tracked()
      ensures var e := Attempt(request, generation, old(link.generation), old(link.now), timeout, link.now);
              log == old(log) + [e] && link.heard == old(link.heard) + [e] && Now() == Advance(old(Now()), e)
      ensures link.generation == old(link.generation) + link.script(old(link.tick)).bump
      ensures link.tick == old(link.tick) + 1 && link.now == old(link.now) + link.script(old(link.tick)).elapsed
      ensures !request.Native? || !answer.Answered? ==> answer == link.script(old(link.tick)).answer
      ensures answer.Answered? <==> link.script(old(link.tick)).answer.Answered?
      ensures answer.Answered? ==> SamePayload(answer.payload, link.script(old(link.tick)).answer.payload)
      ensures Becomes(link.files, old(link.picc), link.generation > old(link.generation), request, answer, link.picc)
      ensures answer.Answered? && QueriesSettings(request) ==>
                answer.payload.settings == SettingsOf(link.files, request.command.header[0])
    {
      answer := link.Exchange(request, timeout);
      ghost var e := Attempt(request, generation, old(link.generation), old(link.now), timeout, link.now);
      AccountedNext(log, state, done, e);
      log, state, done := log + [e], Advance(state, e), done + [e];
    }

    /**
     Open a lease, which captures the generation reported then and compares it with nothing earlier, and
     hand one command over under it.
     */
    method Send(request: Request, timeout: int) returns (answer: Answer)
      requires Tracked() && Admissible(Now().life, request) && link.seen == generation
      modifies this`log, this`state, this`done, link`tick, link`generation, link`now, link`picc, link`heard
      ensures Tracked()
      ensures var lease := old(link.generation) + link.script(old(link.tick)).bump;
              var e := Attempt(request, generation, lease, old(link.now), timeout, link.now);
              log == old(log) + [e] && link.heard == old(link.heard) + [e] && Now() == Advance(old(Now()), e)
      ensures link.generation ==
              old(link.generation) + link.script(old(link.tick)).bump + link.script(old(link.tick) + 1).bump
      ensures link.tick == old(link.tick) + 2 && link.now == old(link.now) + link.script(old(link.tick) + 1).elapsed
      ensures !request.Native? || !answer.Answered? ==> answer == link.script(old(link.tick) + 1).answer
      ensures answer.Answered? <==> link.script(old(link.tick) + 1).answer.Answered?
      ensures answer.Answered? ==> SamePayload(answer.payload, link.script(old(link.tick) + 1).answer.payload)
      ensures Becomes(link.files, old(link.picc), link.generation > old(link.generation), request, answer, link.picc)
      ensures answer.Answered? && QueriesSettings(request) ==>
                answer.payload.settings == SettingsOf(link.files, request.command.header[0])
    {
      var _ := link.ReadGeneration();
      answer := Hand(request, timeout);
    }

    /** Ask application code for a key and note it. */
    method AskKey<A>(answer: A) returns (given: A)
      requires Tracked() && Now().life.Live?
      modifies this`log, this`state, this`done, link`heard, link`tick, link`generation, link`picc
      ensures Tracked() && given == answer && log == old(log) + [KeyCall]
      ensures Now() == Advance(old(Now()), KeyCall)
      ensures link.generation == old(link.generation) + link.script(old(link.tick)).bump
      ensures link.tick == old(link.tick) + 1
    {
      given := link.AskKey(answer);
      AccountedNext(log, state, done, KeyCall);
      log, state, done := log + [KeyCall], Advance(state, KeyCall), done + [KeyCall];
    }

    predicate HasNativeSession()
      reads this
    {
      standardSession.Some? || ev2Session.Some?
    }

    method ClearNativeSession()
      modifies this`standardSession, this`ev2Session
      ensures standardSession == None && ev2Session == None
    {
      if standardSession.Some? {
        standardSession := None;
      }
      if ev2Session.Some? {
        ev2Session := None;
      }
    }

    /** Move all three sessions and the key out of the card. */
    method MoveSessionsOut()
      modifies this`standardSession, this`ev2Session, this`isoSession, this`authenticatedKey
      ensures Snap() == old(Snap()).(
                standardSession := None, ev2Session := None, isoSession := None, authenticatedKey := None)
    {
      standardSession, ev2Session, isoSession := None, None, None;
      authenticatedKey := None;
    }

    /** Wipe every session and mark managed state unusable until reset or reconnect. */
    method InvalidateLocked()
      requires Tracked()
      modifies this
      ensures Valid() && log == old(log) + [Invalidated]
      ensures Snap() == Snapshot(false, None, None, None, None, false, None, old(generation))
    {
      authenticatedKey := None;
      isoSession := None;
      ClearNativeSession();
      authenticationResetPending := false;
      selectedApplication := None;
      usable := false;
      Record(Invalidated);
    }

    /** Put back the sessions, key, pending flag and selection saved in `previous`. */
    method Restore(previous: Snapshot)
      modifies this`standardSession, this`ev2Session, this`isoSession, this`authenticatedKey,
               this`authenticationResetPending, this`selectedApplication
      ensures Snap() == previous.(usable := usable, generation := generation)
    {
      standardSession, ev2Session, isoSession :=
        previous.standardSession, previous.ev2Session, previous.isoSession;
      authenticatedKey := previous.authenticatedKey;
      authenticationResetPending := previous.authenticationResetPending;
      selectedApplication := previous.selectedApplication;
    }

    /** Erase local authentication and demand an explicit resynchronisation. */
    method ResetAuthentication()
      requires Valid()
      modifies this
      ensures Valid() && log == old(log) + [LocalReset]
      ensures Snap() == LocallyReset(old(Snap()))
      ensures standardSession.None? && ev2Session.None? && isoSession.None? && authenticatedKey.None?
      ensures authenticationResetPending <==>
              || old(authenticationResetPending) || old(standardSession).Some? || old(ev2Session).Some?
              || old(isoSession).Some?
      ensures usable == old(usable) && selectedApplication == old(selectedApplication) && generation == old(generation)
    {
      LocalResetMeans(Now());
      var hadAuthentication := HasNativeSession() || isoSession.Some?;
      authenticatedKey := None;
      isoSession := None;
      ClearNativeSession();
      authenticationResetPending := authenticationResetPending || hadAuthentication;
      Record(LocalReset);
    }

    /** Invalidate local state, then reset the transport. */
    method Reset() returns (r: Result<()>)
      requires Valid()
      modifies this, link
      ensures Valid()
      ensures link.heard == old(link.heard)
      ensures r.Ok? <==> link.resettable && link.script(old(link.tick)).answer.Answered?
      ensures r.Ok? ==> log == old(log) + [Invalidated, ResetDone(generation)] && generation > old(generation)
      ensures r.Ok? ==> Snap() == Snapshot(true, None, None, None, None, false, Some(0), generation)
      ensures r.Err? ==> log == old(log) + [Invalidated] && !usable && generation == old(generation)
    {
      InvalidateLocked();
      r := link.Reset();
      if r.Err? {
        return;
      }
      var observed := link.Look();
      Revive(observed);
    }

    /** A wiped card starts over at PICC level in a later generation. */
    method Revive(observed: nat)
      requires Valid() && !usable && generation < observed <= link.generation
      modifies this
      ensures Valid() && log == old(log) + [ResetDone(observed)]
      ensures Snap() == Snapshot(true, None, None, None, None, false, Some(0), observed)
    {
      generation := observed;
      usable := true;
      authenticationResetPending := false;
      selectedApplication := Some(0);
      Record(ResetDone(observed));
    }
  }
}
