/**
 The card and its reader as an environment that may do anything its evidence allows.

 Every interaction consumes one reply of an arbitrary script, so a statement proved for any
 script holds for every behaviour. A reply says how the reported generation moved, how long the
 exchange took, what came back, and - where the evidence leaves it open - whether the command
 took effect on the card.
 */
module Reader {
  import opened Results
  import opened CardTrace

  datatype FileType = StandardData | BackupData | Value | LinearRecord | CyclicRecord | TransactionMac
  datatype FileSettings = FileSettings(fileType: FileType, communication: CommunicationMode)

  /** What the response decoder of the command says; secure-dynamic-messaging layouts are not decoded. */
  datatype Decoding = Decoded | Malformed | UnsupportedLayout {
    function Failure(): Error
      requires !Decoded?
    {
      if Malformed? then Error(MalformedResponse, Unknown) else Error(Unsupported, Succeeded)
    }
  }

  /** The parts of a successful answer the managed layer looks at. */
  datatype Payload = Payload(
    bytes: seq<nat>,
    status: nat,
    decoding: Decoding,
    settings: FileSettings,
    information: AuthenticationInfo,
    sessionValid: bool,
    sessionCreated: bool)

  /** `Threw` is an exception out of the channel, the transport or an allocation. */
  datatype Answer = Answered(payload: Payload) | Failed(error: Error) | Threw

  datatype Reply = Reply(
    bump: nat,
    forgets: bool,
    elapsed: nat,
    stop: bool,
    lands: bool,
    answer: Answer)

  /**
   The transactional side of a card. `committed` lists the mutations that are durable, `staged`
   those waiting for a commit, both oldest first.
   */
  datatype Picc = Picc(committed: seq<Command>, staged: seq<Command>) {
    function Forget(): Picc {
      Picc(committed, [])
    }
  }

  const COMMIT: nat := 0xC7
  const ABORT: nat := 0xA7
  const GET_FILE_SETTINGS: nat := 0xF5

  predicate IsValueOpcode(opcode: nat) {
    opcode == 0x0C || opcode == 0xDC || opcode == 0x1C
  }

  predicate IsRecordOpcode(opcode: nat) {
    opcode == 0x3B || opcode == 0xDB || opcode == 0xEB
  }

  predicate IsMutationOpcode(opcode: nat) {
    IsValueOpcode(opcode) || IsRecordOpcode(opcode) || opcode == 0x3D
  }

  /** The file type on which the card stages `opcode` instead of applying it at once. */
  predicate Stages(opcode: nat, fileType: FileType) {
    || (opcode == 0x3D && fileType.BackupData?)
    || (IsValueOpcode(opcode) && fileType.Value?)
    || (IsRecordOpcode(opcode) && (fileType.LinearRecord? || fileType.CyclicRecord?))
  }

  /** The files of the selected application; a file the card does not have counts as plain standard data. */
  type Files = map<nat, FileSettings>

  function SettingsOf(files: Files, file: nat): FileSettings {
    if file in files then files[file] else FileSettings(StandardData, Plain)
  }

  /** What a command does to the card when it takes effect. */
  function Effect(files: Files, p: Picc, request: Request): Picc {
    match request
    case Native(c) =>
      if c.opcode == COMMIT then Picc(p.committed + p.staged, [])
      else if c.opcode == ABORT then p.Forget()
      else if IsMutationOpcode(c.opcode) && c.header != [] then
        if Stages(c.opcode, SettingsOf(files, c.header[0]).fileType) then p.(staged := p.staged + [c])
        else p.(committed := p.committed + [c])
      else p
    case _ => p
  }

  /** The card may lose its staged work only together with a reported generation change. */
  predicate Drifts(p: Picc, moved: bool, q: Picc) {
    q == p || (moved && q == p.Forget())
  }

  /** How an answer and the card's state after the exchange may be related. */
  predicate Settles(files: Files, p: Picc, request: Request, answer: Answer, q: Picc) {
    match answer
    case Answered(_) => q == Effect(files, p, request)
    case Threw => q == p || q == p.Forget() || q == Effect(files, p, request)
    case Failed(e) =>
      match e.outcome
      case NotSent => q == p
      case Rejected => q == p || q == p.Forget()
      case Succeeded => q == Effect(files, p, request)
      case Unknown => q == p || q == p.Forget() || q == Effect(files, p, request)
  }

  /** The same, when staged work may have been lost beforehand together with a reported change. */
  predicate Becomes(files: Files, p: Picc, moved: bool, request: Request, answer: Answer, q: Picc) {
    Settles(files, p, request, answer, q) || (moved && Settles(files, p.Forget(), request, answer, q))
  }

  predicate QueriesSettings(request: Request) {
    request.Native? && request.command.opcode == GET_FILE_SETTINGS && request.command.header != []
  }

  /** The settings of a file are the card's; everything else is what it answered. */
  predicate SamePayload(p: Payload, answered: Payload) {
    p == answered.(settings := p.settings)
  }

  predicate Benign(reply: Reply) {
    && reply.bump == 0 && reply.elapsed == 0 && !reply.stop
    && reply.answer.Answered? && reply.answer.payload.decoding.Decoded?
  }

  /** An uneventful interaction with an empty successful answer. */
  const BLANK: Payload :=
    Payload([], 0, Decoded, FileSettings(StandardData, Plain), AuthenticationInfo([], [], []), true, true)
  const QUIET: Reply := Reply(0, false, 0, false, false, Answered(BLANK))

  /**
   `heard` is what the environment was asked for, oldest first: every command handed to the channel
   and every call into key-resolution code. Only `Exchange` and `AskKey` extend it. `idle` is the time
   that passed at clock reads, outside every exchange. `seen` is the generation at the last look: it is
   noted with every command, beside the generation reported as the command is handed over, so the two
   differ by exactly the changes reported since that look.
   */
  class Reader {
    const script: nat -> Reply
    const files: Files
    const resettable: bool
    var tick: nat
    var generation: nat
    var now: nat
    var picc: Picc
    ghost var seen: nat
    ghost var idle: nat
    ghost var heard: Log

    constructor (script: nat -> Reply, files: Files, picc: Picc, resettable: bool)
      ensures generation == 1 && tick == 0 && this.picc == picc && this.files == files && this.script == script
      ensures this.resettable == resettable && heard == [] && now == 0 && idle == 0 && seen == 0
    {
      this.script, this.files, this.picc, this.resettable := script, files, picc, resettable;
      tick, generation, now, seen, idle, heard := 0, 1, 0, 0, 0, [];
    }

    method Drift() returns (reply: Reply)
      modifies this`tick, this`generation, this`picc
      ensures reply == script(old(tick)) && tick == old(tick) + 1
      ensures generation == old(generation) + reply.bump
      ensures Drifts(old(picc), generation > old(generation), picc)
    {
      reply := script(tick);
      tick := tick + 1;
      generation := generation + reply.bump;
      if reply.bump > 0 && reply.forgets {
        picc := picc.Forget();
      }
    }

    /** Another thread may have reported a card change since the last look. */
    method ReadGeneration() returns (g: nat)
      modifies this`tick, this`generation, this`picc
      ensures g == generation == old(generation) + script(old(tick)).bump && tick == old(tick) + 1
      ensures Drifts(old(picc), generation > old(generation), picc)
    {
      var reply := Drift();
      g := generation;
    }

    /** Look at the generation in order to compare it with one captured earlier. */
    method Look() returns (g: nat)
      modifies this`tick, this`generation, this`picc, this`seen
      ensures g == seen == generation == old(generation) + script(old(tick)).bump && tick == old(tick) + 1
      ensures Drifts(old(picc), generation > old(generation), picc)
    {
      g := ReadGeneration();
      seen := g;
    }

    /** Read the steady clock, in nanoseconds, and the caller's stop token. */
    method ReadClock() returns (time: nat, stop: bool)
      modifies this`tick, this`now, this`idle
      ensures time == now == old(now) + script(old(tick)).elapsed && idle == old(idle) + script(old(tick)).elapsed
      ensures stop == script(old(tick)).stop && tick == old(tick) + 1
    {
      var reply := script(tick);
      tick := tick + 1;
      now, idle := now + reply.elapsed, idle + reply.elapsed;
      time, stop := now, reply.stop;
    }

    /** Call into key-resolution code of the application, which gives its answer; the card may change meanwhile. */
    method AskKey<A>(answer: A) returns (given: A)
      modifies this`heard, this`tick, this`generation, this`picc
      ensures given == answer && heard == old(heard) + [KeyCall]
      ensures generation == old(generation) + script(old(tick)).bump && tick == old(tick) + 1
      ensures Drifts(old(picc), generation > old(generation), picc)
    {
      var _ := Drift();
      heard := heard + [KeyCall];
      given := answer;
    }

    /** Hand one logical command to the channel, under a lease of the generation reported now. */
    method Exchange(request: Request, timeout: int) returns (answer: Answer)
      modifies this`tick, this`generation, this`now, this`picc, this`heard
      ensures heard == old(heard) + [Attempt(request, seen, old(generation), old(now), timeout, now)]
      ensures generation == old(generation) + script(old(tick)).bump && tick == old(tick) + 1
      ensures now == old(now) + script(old(tick)).elapsed
      ensures !request.Native? || !answer.Answered? ==> answer == script(old(tick)).answer
      ensures answer.Answered? <==> script(old(tick)).answer.Answered?
      ensures answer.Answered? ==> SamePayload(answer.payload, script(old(tick)).answer.payload)
      ensures Becomes(files, old(picc), generation > old(generation), request, answer, picc)
      ensures answer.Answered? && QueriesSettings(request) ==>
                answer.payload.settings == SettingsOf(files, request.command.header[0])
    {
      var reply := Drift();
      now := now + reply.elapsed;
      heard := heard + [Attempt(request, seen, old(generation), old(now), timeout, now)];
      ghost var p := picc;
      answer := reply.answer;
      if answer.Answered? && QueriesSettings(request) {
        answer := Answered(answer.payload.(settings := SettingsOf(files, request.command.header[0])));
      }
      var open := answer.Threw? || (answer.Failed? && answer.error.outcome.Unknown?);
      if answer.Answered? || (answer.Failed? && answer.error.outcome.Succeeded?) || (open && reply.lands) {
        picc := Effect(files, picc, request);
      } else if (open || answer.error.outcome.Rejected?) && reply.forgets {
        picc := picc.Forget();
      }
      assert Settles(files, p, request, answer, picc);
    }

    /** Reset the transport: where there is a reset callback, the generation advances even when it fails. */
    method Reset() returns (r: Result<()>)
      modifies this`tick, this`generation, this`picc
      ensures generation == old(generation) + script(old(tick)).bump + (if resettable then 1 else 0)
      ensures r.Ok? <==> resettable && script(old(tick)).answer.Answered?
      ensures r.Err? && !resettable ==> r.error == Error(Unsupported)
    {
      var reply := Drift();
      if !resettable {
        return Err(Error(Unsupported));
      }
      generation := generation + 1;
      match reply.answer
      case Answered(_) => r := Ok(());
      case Failed(e) => r := Err(e);
      case Threw => r := Err(Error(Transport, Unknown));
    }

    /**
     From this tick on - a look, a lease, an exchange, a look - the command is answered in full while no card
     change is reported.
     */
    predicate Prompt(at: nat)
    {
      && script(at).bump == 0 && script(at + 1).bump == 0 && script(at + 2).bump == 0 && script(at + 3).bump == 0
      && script(at + 2).answer.Answered?
    }

    /** From this tick on nothing goes wrong: every answer is good and prompt, and no card change is reported. */
    ghost predicate Obliging(from: nat)
    {
      forall n: nat :: n >= from ==> Benign(script(n))
    }
  }

  /** What may happen between a look and the hand-over of a command. */
  datatype Interlude = OpeningLease | RunningKeyCode | ReadingClock

  /** The changes reported during these interludes, the first of which begins at this tick. */
  function Reported(script: nat -> Reply, tick: nat, interludes: seq<Interlude>): nat
    decreases |interludes|
  {
    if interludes == [] then 0
    else
      var n := |interludes| - 1;
      Reported(script, tick, interludes[..n]) + (if interludes[n].ReadingClock? then 0 else script(tick + n).bump)
  }

  /**
   Theorem: whatever lies between a look and a hand-over, the command is dated with the generation seen at
   the look and handed over later by exactly the changes reported in between - in the generation seen, then,
   exactly if there were none.
   */
  method LookAndHandOver(link: Reader, interludes: seq<Interlude>, request: Request, timeout: int) returns (seen: nat)
    modifies link
    ensures |link.heard| > |old(link.heard)|
    ensures var e := link.heard[|link.heard| - 1];
            var late := Reported(link.script, old(link.tick) + 1, interludes);
            && e.Attempt? && e.request == request && e.seen == seen
            && e.generation == seen + late && (e.generation == seen <==> late == 0)
  {
    seen := link.Look();
    ghost var start := link.tick;
    for n := 0 to |interludes|
      invariant link.tick == start + n && link.seen == seen && |link.heard| >= |old(link.heard)|
      invariant link.generation == seen + Reported(link.script, start, interludes[..n])
    {
      assert interludes[..n + 1][..n] == interludes[..n];
      match interludes[n]
      case OpeningLease => var _ := link.ReadGeneration();
      case RunningKeyCode => var _ := link.AskKey(());
      case ReadingClock => var _, _ := link.ReadClock();
    }
    assert interludes[..|interludes|] == interludes;
    var _ := link.Exchange(request, timeout);
  }
}
