/** Actual ISO/IEC 7816 commands next to native sessions. */
module CardIso7816 {
  import opened Results
  import opened CardTrace
  import opened Reader
  import opened ManagedCard
  import opened CardManagement

  const ISO_SUCCESS: nat := 0x9000

  method AdmitIso(card: Card, command: IsoCommand) returns (refusal: Option<Error>)
    requires card.Valid()
    modifies card, card.link
    ensures card.Valid() && card.generation == old(card.generation)
    ensures card.link.generation >= old(card.link.generation) && card.link.now == old(card.link.now)
    ensures refusal.None? ==>
              card.log == old(card.log) && card.Snap() == old(card.Snap()) && card.Now() == old(card.Now())
    ensures refusal.None? ==> card.link.seen == card.link.generation == card.generation
    ensures refusal.None? ==> card.link.tick == old(card.link.tick) + 1
    ensures refusal.None? ==> Admissible(card.Now().life, Iso(command))
    ensures refusal.None? <==>
            && old(card.usable)
            && (command.resetsAuthentication ||
                (&& !old(card.authenticationResetPending)
                 && old(card.standardSession).None? && old(card.ev2Session).None?))
            && old(card.link.generation) + card.link.script(old(card.link.tick)).bump == card.generation
    ensures refusal.Some? ==>
              refusal.value == Error(
                if || !old(card.usable) || (old(card.authenticationResetPending) && !command.resetsAuthentication)
                   || old(card.link.generation) + card.link.script(old(card.link.tick)).bump == card.generation then
                  SessionInvalid
                else CardRemoved)
    // A refusal changes nothing, unless it found the card changed.
    ensures refusal.Some? ==>
              if refusal.value.code == CardRemoved then
                card.log == old(card.log) + [Invalidated] && !card.usable && card.link.generation != card.generation
              else card.log == old(card.log) && card.Snap() == old(card.Snap())
  {
    if !card.usable {
      return Some(Error(SessionInvalid));
    }
    if card.authenticationResetPending && !command.resetsAuthentication {
      return Some(Error(SessionInvalid));
    }
    var observed := card.link.Look();
    if observed != card.generation {
      card.InvalidateLocked();
      return Some(Error(CardRemoved));
    }
    if card.HasNativeSession() && !command.resetsAuthentication {
      return Some(Error(SessionInvalid));
    }
    return None;
  }

  method InstallIsoSelection(card: Card)
    requires card.Tracked() && card.usable && card.Now().life.Live?
    requires !card.Snap().HasSession() && card.authenticatedKey.None?
    requires EntryOk(card.Now(), IsoSelected)
    modifies card
    ensures card.Valid() && card.log == old(card.log) + [IsoSelected]
    ensures card.Snap() == Snapshot(true, None, None, None, None, false, None, old(card.generation))
  {
    card.authenticationResetPending := false;
    card.selectedApplication := None;
    card.Record(IsoSelected);
  }

  /** The card without its authentication, as it is while an authentication-resetting command runs. */
  function Stripped(s: Snapshot): Snapshot {
    s.(standardSession := None, ev2Session := None, isoSession := None, authenticatedKey := None,
       authenticationResetPending := false)
  }

  /**
   A failed exchange spares the card if nothing was sent and the saved fields come back, or if there was no
   authentication to lose and the outcome is certain.
   */
  predicate Survives(before: Snapshot, command: IsoCommand, outcome: Outcome) {
    || (outcome.NotSent? && command.resetsAuthentication)
    || (&& before.standardSession.None? && before.ev2Session.None? && before.isoSession.None?
        && !before.authenticationResetPending && !outcome.Unknown?)
  }

  method ExchangeIso(card: Card, command: IsoCommand, timeout: int) returns (answer: Answer)
    requires card.Valid() && card.usable && Admissible(card.Now().life, Iso(command))
    requires card.link.seen == card.generation
    modifies card, card.link
    ensures card.Tracked() && card.generation == old(card.generation)
    // Handed over in the captured generation exactly when no change was reported as the lease was opened.
    ensures var lease := old(card.link.generation) + card.link.script(old(card.link.tick)).bump;
            && card.link.generation == lease + card.link.script(old(card.link.tick) + 1).bump
            && card.Now() == old(card.Now()).(inFlight := Some(Iso(command)), latest := lease)
            && card.log == old(card.log) +
                           [Attempt(Iso(command), card.generation, lease, old(card.link.now), timeout, card.link.now)]
    ensures answer == card.link.script(old(card.link.tick) + 1).answer && card.link.tick == old(card.link.tick) + 2
    ensures card.Snap() == if command.resetsAuthentication then Stripped(old(card.Snap())) else old(card.Snap())
  {
    if command.resetsAuthentication {
      card.MoveSessionsOut();
      card.authenticationResetPending := false;
    }
    answer := card.Send(Iso(command), timeout);
  }

  /**
   Execute one ISO command. A command that resets authentication runs with every session moved
   out; they come back exactly when it was not sent or did not answer 9000.
   */
  method ExecuteIso(card: Card, command: IsoCommand, timeout: int) returns (r: Result<Payload>)
    requires card.Valid()
    modifies card, card.link
    ensures card.Valid() && card.generation == old(card.generation) && old(card.log) <= card.log
    ensures r.Ok? ==> old(card.link.generation) == card.link.generation == card.generation
    ensures r.Ok? <==> && old(card.usable)
                       && (command.resetsAuthentication ||
                           (&& !old(card.authenticationResetPending)
                            && old(card.standardSession).None? && old(card.ev2Session).None?))
                       && old(card.link.generation) == card.generation && card.link.Prompt(old(card.link.tick))
    ensures r.Ok? ==> Answered(r.value) == card.link.script(old(card.link.tick) + 2).answer
    ensures r.Ok? && command.resetsAuthentication && r.value.status == 0x9000 ==>
              card.Snap() == Snapshot(true, None, None, None, None, false, None, card.generation) &&
              card.log != [] && card.log[|card.log| - 1] == IsoSelected
    // Exact rollback.
    ensures r.Ok? && command.resetsAuthentication && r.value.status != 0x9000 ==> card.Snap() == old(card.Snap())
    ensures r.Err? && r.error.outcome.NotSent? && command.resetsAuthentication &&
            card.link.generation == card.generation ==>
              card.Snap() == old(card.Snap())
    // What is left is the card as it was, or an unusable one; it survives a failure exactly as stated.
    ensures r.Err? ==> !card.usable || card.Snap() == old(card.Snap())
    ensures r.Err? ==>
              if (&& old(card.usable)
                  && (command.resetsAuthentication ||
                      (&& !old(card.authenticationResetPending)
                       && old(card.standardSession).None? && old(card.ev2Session).None?))
                  && old(card.link.generation) + card.link.script(old(card.link.tick)).bump == card.generation) then
                && r.error == FailureFor(card.link.script(old(card.link.tick) + 2).answer)
                && (card.usable <==> Survives(old(card.Snap()), command, r.error.outcome))
              else r.error.outcome.NotSent? && (card.usable <==> old(card.usable) && r.error.code != CardRemoved)
    ensures r.Ok? && !command.resetsAuthentication ==>
              if old(card.isoSession).Some? && !r.value.sessionValid then !card.usable
              else card.Snap() == old(card.Snap())
    ensures r.Uncertain() ==> !card.usable
    // Handed over in the captured generation exactly when no change was reported as the lease was opened.
    ensures LeasedIn(old(card.log), card.log, Iso(command), timeout,
                     card.generation + card.link.script(old(card.link.tick) + 1).bump)
    ensures r.Ok? ==> AttemptAt(card.log, |old(card.log)|)
  {
    var refusal := AdmitIso(card, command);
    if refusal.Some? {
      return Err(refusal.value);
    }
    r := RunIso(card, command, timeout);
  }

  /** After admission: save, exchange, and settle what the answer means. */
  method RunIso(card: Card, command: IsoCommand, timeout: int) returns (r: Result<Payload>)
    requires card.Valid() && card.usable && Admissible(card.Now().life, Iso(command))
    requires card.link.seen == card.link.generation == card.generation
    modifies card, card.link
    ensures card.Valid() && card.generation == old(card.generation) && old(card.log) < card.log
    ensures r.Ok? <==> Kept(card.link, old(card.link.tick))
    ensures r.Ok? ==> card.link.generation == card.generation
    ensures r.Ok? ==> Answered(r.value) == card.link.script(old(card.link.tick) + 1).answer
    ensures r.Ok? && command.resetsAuthentication && r.value.status == 0x9000 ==>
              card.Snap() == Snapshot(true, None, None, None, None, false, None, card.generation) &&
              card.log[|card.log| - 1] == IsoSelected
    ensures r.Ok? && command.resetsAuthentication && r.value.status != 0x9000 ==> card.Snap() == old(card.Snap())
    ensures r.Err? && r.error.outcome.NotSent? && command.resetsAuthentication ==> card.Snap() == old(card.Snap())
    ensures r.Err? ==> !card.usable || card.Snap() == old(card.Snap())
    ensures r.Err? ==> r.error == FailureFor(card.link.script(old(card.link.tick) + 1).answer)
    ensures r.Err? ==> (card.usable <==> Survives(old(card.Snap()), command, r.error.outcome))
    ensures r.Ok? && !command.resetsAuthentication ==>
              if old(card.isoSession).Some? && !r.value.sessionValid then !card.usable
              else card.Snap() == old(card.Snap())
    ensures r.Uncertain() ==> !card.usable
    ensures LeasedIn(old(card.log), card.log, Iso(command), timeout,
                     card.generation + card.link.script(old(card.link.tick)).bump)
    ensures r.Ok? ==> AttemptAt(card.log, |old(card.log)|)
  {
    var previous := card.Snap();
    var answer := ExchangeIso(card, command, timeout);
    match answer
    case Threw =>
      card.InvalidateLocked();
      r := Err(Error(Internal, Unknown));
    case Failed(error) =>
      AbandonIso(card, command, error.outcome, previous);
      r := Err(error);
    case Answered(payload) =>
      r := ConcludeIso(card, command, payload, previous);
  }

  /** A response counts only when the captured generation is still the reported one. */
  method ConcludeIso(card: Card, command: IsoCommand, payload: Payload, previous: Snapshot) returns (r: Result<Payload>)
    requires card.Tracked() && card.usable && card.Now().life.Live? && card.Now().inFlight == Some(Iso(command))
    requires previous == Concretize(card.Now().generation, card.Now().life)
    requires card.Snap() == if command.resetsAuthentication then Stripped(previous) else previous
    modifies card, card.link
    ensures card.Valid() && card.generation == old(card.generation) && old(card.log) <= card.log
    ensures r.Ok? <==> old(card.link.generation) + card.link.script(old(card.link.tick)).bump == card.generation
    ensures r.Ok? ==> r.value == payload && card.link.generation == card.generation
    ensures r.Err? ==> r.error == Error(CardRemoved, Unknown) && !card.usable
    ensures r.Ok? && command.resetsAuthentication && payload.status == 0x9000 ==>
              card.Snap() == Snapshot(true, None, None, None, None, false, None, card.generation) &&
              |card.log| > |old(card.log)| && card.log[|card.log| - 1] == IsoSelected
    ensures r.Ok? && command.resetsAuthentication && payload.status != 0x9000 ==> card.Snap() == previous
    ensures r.Ok? && !command.resetsAuthentication ==>
              if previous.isoSession.Some? && !payload.sessionValid then !card.usable else card.Snap() == previous
    ensures forall k :: |old(card.log)| <= k < |card.log| ==> !card.log[k].Attempt?
  {
    var observed := card.link.Look();
    if observed != card.generation {
      card.InvalidateLocked();
      return Err(Error(CardRemoved, Unknown));
    }
    SettleIso(card, command, payload, previous);
    r := Ok(payload);
  }

  /** What a failed exchange does to the card. */
  method AbandonIso(card: Card, command: IsoCommand, outcome: Outcome, previous: Snapshot)
    requires card.Tracked() && card.usable && card.Now().life.Live?
    requires previous == Concretize(card.Now().generation, card.Now().life)
    requires card.Snap() == if command.resetsAuthentication then Stripped(previous) else previous
    modifies card
    ensures card.Valid() && card.generation == old(card.generation) && old(card.log) <= card.log
    ensures card.usable ==> card.Snap() == previous
    ensures card.usable <==> Survives(previous, command, outcome)
    ensures forall k :: |old(card.log)| <= k < |card.log| ==> !card.log[k].Attempt?
  {
    var hadPreviousAuthentication := previous.HasNativeSession() || previous.isoSession.Some?;
    if outcome.NotSent? && command.resetsAuthentication {
      card.Restore(previous);
    } else if hadPreviousAuthentication || previous.authenticationResetPending ||
              card.isoSession.Some? || outcome.Unknown? {
      card.InvalidateLocked();
    }
  }

  /** What a response that arrived in the captured generation does to the card. */
  method SettleIso(card: Card, command: IsoCommand, payload: Payload, previous: Snapshot)
    requires card.Tracked() && card.usable && card.Now().life.Live? && card.Now().inFlight == Some(Iso(command))
    requires previous == Concretize(card.Now().generation, card.Now().life)
    requires card.Snap() == if command.resetsAuthentication then Stripped(previous) else previous
    modifies card
    ensures card.Valid() && card.generation == old(card.generation) && old(card.log) <= card.log
    ensures command.resetsAuthentication && payload.status == 0x9000 ==>
              card.Snap() == Snapshot(true, None, None, None, None, false, None, card.generation) &&
              |card.log| > |old(card.log)| && card.log[|card.log| - 1] == IsoSelected
    ensures command.resetsAuthentication && payload.status != 0x9000 ==> card.Snap() == previous
    ensures !command.resetsAuthentication ==>
              if previous.isoSession.Some? && !payload.sessionValid then !card.usable else card.Snap() == previous
    ensures forall k :: |old(card.log)| <= k < |card.log| ==> !card.log[k].Attempt?
  {
    if card.isoSession.Some? && !payload.sessionValid {
      card.InvalidateLocked();
    }
    if command.resetsAuthentication {
      if payload.status == ISO_SUCCESS {
        InstallIsoSelection(card);
      } else {
        card.Restore(previous);
      }
    }
  }
}
