# A verified model of the DESFire EV3 core

The library drives a contactless card through a reader that may answer, refuse, lose a command or report
that the card is gone at any moment. This project models the parts of it in which that uncertainty is
handled, and proves what they keep on every run against every reader.

`dafny verify dfyconfig.toml` checks the whole project.

## How the model is built

**The reader** (`Reader.dfy`) is an environment. Every interaction consumes one reply of an arbitrary
script: how far the reported generation moved, how long the exchange took, whether a stop was requested,
what came back, and, where the evidence leaves it open, whether the command took effect. A statement for
every script is a statement for every behaviour. The environment keeps a ghost record of what it heard:
every command handed over, with the generation seen at the last look, the generation of the lease under which
it goes out, its timeout and when its exchange began and ended, and every call for a key. Only an exchange and a
key call extend that record. Behind the
reader is a small card: the mutations that are committed, those that are staged, and the settings of the
files.

**The managed card** (`ManagedCard.dfy`, `CardManagement.dfy`, `CardDiscovery.dfy`, `CardIso7816.dfy`,
`CardAuthentication.dfy`, `CardTransactions.dfy`) is a class with the fields of the original and methods
that update them in the original order. It also keeps a ghost log of what it handed to the channel, every
call for a key, every change of tracked state. `CardTrace.dfy` defines, without reference to that class,
which logs are lawful and which state a log stands for; every method is proved to write a lawful log, to
hold exactly the state of its log, and to log exactly what the environment heard. The theorems of
`CardTrace.dfy` are inductions over all lawful logs, and `CardRuns.dfy` connects them to every sequence of
calls and states generation safety and silence after uncertainty over what was heard. That a log is lawful and
stands for the card's state is guarded (`ManagedCard.Accounted`), so that proofs look into it only where a log
grows or a theorem about logs is applied.

**The transaction executor** is proved against an independent plan (`TransactionPlan.dfy`) and against the
staged and committed state of the card.

**The handle registry** (`Handles.dfy`) is a machine of interleaved threads, each with a stack of calls, so
that re-entry from a callback is covered. **Raw sessions** (`RawSessions.dfy`) are a class of their own,
since their rules differ from the managed ones.

**Bytes.** `Polynomials.dfy` proves the theory of reflected shift registers of any width, with long
division as the reference; `Crc.dfy` proves the byte-wise loops against it. `Hex.dfy`, `ReaderList.dfy` and
`OfflineMac.dfy` hold the text conversion, the PC/SC name list and the offline MAC inputs. Machine words
are naturals, and the bitwise operators are defined bit by bit in `Words.dfy`.

### What is assumed of the card and the channels

- A command that was answered took effect; one reported not sent did not; a rejected one changed nothing,
  except that it may have aborted what was staged; an uncertain one did either.
- The card loses staged work only by an abort, a commit, or together with a reported generation change.
- The generation starts at one or more and only grows.
- An EV2 session counts a command when it is prepared and refuses at 0xFFFF.
- Opening a lease sends nothing, so its failure is part of an exchange that was not sent. What a managed command's
  lease itself compares while the command is under way is part of the exchange.
- The settings of a file do not change during a transaction.

### Where code and documentation differ

`docs/architecture/transport-lifecycle.md:11-12` says that managed and raw operations compare the generation
before and after I/O. Every exchange does so against the generation its own lease captured when it was opened,
but four comparisons with a generation captured earlier are missing, and the model follows the code.

- A managed operation looks at the generation first and opens its lease afterwards, and with a deriver or a key
  provider application code runs in between. A change reported there sends the command in a later generation, under
  a session of the captured one if there is a session. Every operation states that the hand-over is in the captured
  generation exactly when no change was reported in that window, `Reader.LookAndHandOver` states it for whatever lies
  between look and lease, and `CardRuns.Run` states that a call that succeeds handed everything over in the captured
  generation, so a command handed over elsewhere never succeeds. `CardRuns.LateLeaseUnderSession` exhibits a command
  handed over in generation two under a session of generation one.
- Raw authentication keeps to the generation of its lease and then binds the session to the generation it reads
  once more, without comparing the two. `RawSessions.RawEntry.Authenticate` and
  `RawSessions.RawEntry.AuthenticateNonFirst` state that session and binding agree exactly when no change was
  reported as the binding was read; `RawSessions.StaleBindingWitness` exhibits a command sent in generation two
  under a session of generation one.
- A protected raw exchange compares its binding with the reported generation before it opens its lease.
  `RawSessions.RunRaw` states that a command goes out in the generation its session was born in exactly when no
  change was reported in this window or as the session was bound; `RawSessions.LateLeaseWitness` exhibits a command
  admitted in generation one that goes out and succeeds in generation two.
- The managed DF-name enumeration compares with the captured generation only before it opens its lease, and not
  after its last frame either. `CardDiscovery.DfNames` states that the names belong to the captured generation exactly
  when no change was reported while the lease was opened; `CardDiscovery.LateLeaseWitness` exhibits a name of
  generation two returned by a usable card of generation one.

## Model

| member | source | states |
|---|---|---|
| `CardTrace.ReachableCardIsExclusive` | core/src/managed/card_impl.hpp:65-106 | In every reachable state: at most one of the three sessions, a key exactly with a native session, no session while a local reset is pending, nothing at all on an unusable card, every session of the captured generation |
| `CardTrace.DeadStaysDead` | core/src/managed/card_lifecycle.cpp:152-184 | From an invalidated state nothing but a completed reset revives the card, over any stretch of any run |
| `CardTrace.QuiescentAfterUncertainty` | core/src/managed/card_lifecycle.cpp:152-184 | After an uncertain answer or an invalidation no command goes out, no key is asked for and no session or selection is installed until a reset succeeds |
| `CardTrace.DeadIsSilent` | core/src/managed/card_lifecycle.cpp:152-184 | Between two points of one captured generation a dead card stays dead and nothing is done outside it |
| `CardTrace.TrackedKeyWasInstalled` | core/src/managed/card_authentication.cpp:271-291 | The tracked key is the one of the last authentication, which directly followed its own handshake, with nothing since that touches authentication; it is of an EV2 chain exactly if that authentication was |
| `CardTrace.TrackedSelectionWasMade` | core/src/managed/card_applications.cpp:82-105 | The tracked selection is that of the last acknowledged select, or the PICC level of the last connect or reset |
| `CardTrace.DemandsAreJustified` | core/src/managed/card_management.cpp:85-114 | A command demanding a key, a key out of a set, a session, an EV2 session or the PICC level reaches the channel only if an earlier entry established just that and none since took it away |
| `CardTrace.Ev2ChainKeepsIdentityAndCounts` | core/src/managed/card_authentication.cpp:246-291 | Between any two points of one EV2 chain the identity is that of the First and the counter has grown by exactly the number of commands sent |
| `CardTrace.Ev2CounterNeverRepeats` | core/src/managed/card_authentication.cpp:246-291 | No two commands of one EV2 chain are protected under the same counter value |
| `CardTrace.HandOverFollowsTheCapture` | core/src/managed/card_management.cpp:81-84 | Before every hand-over the last look was in the generation captured by the last connect or reset, and the hand-over is in no earlier one |
| `CardTrace.ActionsFollowTheCapture` | core/src/native/raw/channel.cpp:62-69 | Everything handed over between two points of one captured generation was looked for in it and is dated between it and the latest hand-over |
| `CardTrace.GenerationNeverFalls` | transports/callback/src/callback.cpp:88-109 | The captured generation never falls along a run, so an older session's generation never comes back |
| `CardRuns.Run` | core/src/managed/card_lifecycle.cpp:34-58 | For any reader and any sequence of calls: the fields are exactly what a lawful log says and are exclusive; the log's actions are exactly what the environment heard; what is heard during a call is its own, and a call that succeeds was heard; every hand-over of a call was looked for in the generation captured before it, which only a successful reset moves, and is in no earlier one; a call that succeeds, DF names aside, handed everything over in exactly that generation; after an uncertain answer nothing is heard until a reset has succeeded; a local reset always succeeds, a transport reset does on a reader that always answers, and then captures a later generation |
| `CardRuns.Perform` | core/src/managed/card_management.cpp:51-59 | Each public operation keeps the invariant, succeeds exactly on its stated condition (a transaction: whenever nothing stands in its way), hands over only commands of its own and only after a look in the captured generation, succeeds only if all was handed over in it, DF names aside, is not heard at all on an unusable card, and leaves the card unusable when its answer is uncertain |
| `CardRuns.LateLeaseUnderSession` | core/src/managed/card_management.cpp:81-137 | A run in which a command looked for in generation one is handed over in generation two under a session of generation one, fails and leaves the card unusable |
| `Reader.Reader.ReadGeneration` | transports/callback/src/callback.cpp:107-109 | A generation read is never below an earlier one; staged work can vanish only together with a change of it |
| `Reader.LookAndHandOver` | core/src/native/raw/channel.cpp:62-69 | Whatever lies between a look and a hand-over, the hand-over is later than the look by exactly the changes reported in between, and in the generation seen exactly if there were none |
| `Reader.Reader.Reset` | transports/callback/src/callback.cpp:88-102 | Without a reset callback nothing advances; with one the generation advances whatever the callback answers, and success is the callback's |
| `ManagedCard.Card.constructor` | core/src/managed/card_lifecycle.cpp:34-58 | A new card is usable at PICC level in the generation reported at connect, and its log says so |
| `ManagedCard.Card.InvalidateLocked` | core/src/managed/card_lifecycle.cpp:177-184 | Sessions, key, pending flag and selection are gone and the card is unusable |
| `ManagedCard.Card.ResetAuthentication` | core/src/managed/card_lifecycle.cpp:135-149 | Every session is erased; a reset becomes pending exactly if there was one, or stays pending |
| `ManagedCard.Card.Reset` | core/src/managed/card_lifecycle.cpp:152-169 | Success, exactly when the transport's reset succeeds, gives a fresh card in a strictly later generation; failure leaves it unusable |
| `ManagedCard.Card.Send` | core/src/native/raw/channel.cpp:62-69 | A command can be handed over only where the tracked state admits it and the last look was in the captured generation; it is dated with the generation of its lease, later by the change reported as the lease is opened; log and environment record the same |
| `CardManagement.AdmitCommand` | core/src/managed/card_management.cpp:66-114 | A command is admitted exactly when it passes every gate and the captured generation is still reported; a refusal gives the first reason in order and changes nothing unless it found the card changed, which kills it |
| `CardManagement.ExchangeProtected` | core/src/managed/card_management.cpp:129-137 | One command is logged and counted by an EV2 session, or refused unsent when its counter is used up |
| `CardManagement.Conclude` | core/src/managed/card_management.cpp:138-147 | An answer counts exactly if the captured generation is still reported; the error is the answer's own, and the card survives it exactly without a session and without uncertainty |
| `CardManagement.Deliver` | core/src/managed/card_management.cpp:66-147 | The exact conditions for hand-over, for hand-over in the captured generation, and for delivery; which error otherwise and whether the card survives it; delivered, the payload is the answer and the effect on the card is that command's, otherwise the error's outcome explains the card's state |
| `CardManagement.ExecuteLocked` | core/src/managed/card_management.cpp:63-232 | Handed over exactly when each field of the card meets each demand of the command, EV2, PICC level, key and counter included; the exact condition for success, which is one command wholly inside the captured generation, returns what the card answered and leaves the fields as they were but for one counted command or the ended session; which error otherwise, and whether the card survives it |
| `CardManagement.DepartsMeans` | core/src/managed/card_management.cpp:63-114 | The gates of the tracked state are, demand by demand, conditions on the fields of the card |
| `CardManagement.Accept` | core/src/managed/card_management.cpp:148-226 | The answers of eleven opcodes, the commit's if it has bytes, are decoded before they are handed out, and one that does not decode kills the card; only then does a session-ending command end the session |
| `CardManagement.EndSession` | core/src/managed/card_management.cpp:222-225 | A session-ending command removes exactly the native session and its key |
| `CardDiscovery.ExecutePlainLocked` | core/src/managed/card_lifecycle.cpp:69-132 | Success has one exact condition over the fields of the card, with or without a session, and returns the answer; under a session only the checked forms of three commands go out; without one, which error and whether the card survives it |
| `CardDiscovery.ExchangePlain` | core/src/managed/card_lifecycle.cpp:101-131 | Succeeds exactly when answered with status zero and no generation change around it, and then leaves every field alone; the error gives the first reason in order and kills the card exactly if uncertain or if the card had changed |
| `CardDiscovery.SelectApplication` | core/src/managed/card_applications.cpp:63-105 | The exact condition for success, after which nothing but the new selection is left; the only command heard is the select, in the captured generation exactly when no change was reported in between; which error, and that the card survives it exactly if it was not authenticated, did not change and the outcome is certain |
| `CardDiscovery.AttemptSelection` | core/src/managed/card_applications.cpp:84-105 | From a card without authentication: success sets the selection alone, failure restores the pending reset or kills the card, on exactly stated conditions |
| `CardDiscovery.AbandonSelection` | core/src/managed/card_applications.cpp:85-96 | A failed selection kills exactly a card that was authenticated and otherwise restores exactly the pending reset |
| `CardDiscovery.GetVersion` | core/src/managed/card_discovery.cpp:32-50 | Only the version command is heard, in its checked form under a session; success is exactly an answered, decodable version within the captured generation, and returns that answer; one that cannot be decoded kills the card |
| `CardDiscovery.FreeMemory` | core/src/managed/card_discovery.cpp:52-70 | Only the memory command is heard, in its checked form under a session; the value is the three answered bytes, low byte first; an answer of any other length kills the card |
| `CardDiscovery.FileIds` | core/src/managed/card_discovery.cpp:72-102 | Only the file-identifier command is heard, in its checked form under a session; success is exactly an answer of at most 32 distinct bytes below 32, which are the value; any other list kills the card |
| `CardDiscovery.ExchangeLeasedFrame` | core/src/native/raw/channel.cpp:109-160 | An answered frame lies wholly in the generation of its lease; otherwise exactly which failure, and after the first frame none counts as unsent |
| `CardDiscovery.DfNames` | core/src/managed/card_discovery.cpp:105-184 | The exact condition for success, which returns what the frames carried in order; only frames of one lease are heard, of which only the first asks anew; the lease is in the captured generation exactly when no change was reported while it was opened; which refusal, and the card survives exactly without uncertainty and change |
| `CardDiscovery.ReadFrames` | core/src/managed/card_discovery.cpp:135-178 | Succeeds exactly when at most 4096 good frames, each but the last announcing another, end in records that all decode, and returns these in order; an uncertain end kills the card |
| `CardDiscovery.CompleteMeans` | core/src/managed/card_discovery.cpp:135-178 | An enumeration ends well after m frames exactly if m is at most 4096, all but the last announce another with 1 to 21 bytes, the last has at most 29, each stayed in its lease, and every record has 5 to 21 bytes and a nonzero application |
| `CardDiscovery.RecordsAreInOrder` | core/src/managed/card_discovery.cpp:135-178 | Record i is what frame i carried; only a last frame may carry none |
| `CardDiscovery.LateLeaseWitness` | core/src/managed/card_discovery.cpp:125-133 | A run in which a name read in generation two is returned by a usable card of generation one |
| `CardIso7816.AdmitIso` | core/src/managed/card_iso7816.cpp:19-35 | Admitted exactly when the fields of the card allow the command and the captured generation is still reported; a refusal gives the first reason and changes nothing unless it found the card changed |
| `CardIso7816.ExecuteIso` | core/src/managed/card_iso7816.cpp:14-98 | The exact conditions for success, which returns the answer, and for a hand-over in the captured generation; a resetting command answered 9000 leaves only an unknown selection; not sent, or answered otherwise, it leaves every field as it was; which error otherwise, and exactly when the card survives it |
| `CardIso7816.AbandonIso` | core/src/managed/card_iso7816.cpp:57-71 | After a failed exchange the card survives exactly if an unsent resetting command gets its saved fields back or there was no authentication to lose and the outcome is certain |
| `CardIso7816.SettleIso` | core/src/managed/card_iso7816.cpp:77-94 | Status 9000 clears the selection, any other status restores all saved fields |
| `CardIso7816.ConcludeIso` | core/src/managed/card_iso7816.cpp:72-94 | A response counts exactly if the captured generation is still reported; otherwise the card is unusable and the answer uncertain |
| `CardAuthentication.Preflight` | core/src/managed/card_authentication.cpp:202-223 | Passes exactly on a usable card in its captured generation with time, no stop and, for NonFirst, an EV2 session; a refusal gives the first reason in order and changes nothing unless it found the card changed |
| `CardAuthentication.ResolveOnce` | core/src/managed/card_authentication.cpp:110-196 | Application code is called at most once, exactly when not cancelled beforehand, and the card may change meanwhile; success has one exact condition and gives the source's key; every failure is exactly named, unsent and changes no field |
| `CardAuthentication.AcceptedSources` | core/src/managed/card_authentication.cpp:36-99 | For each family and each ISO reference, which purpose, profile, scope and key number a derived or provided key must have |
| `CardAuthentication.RunHandshake` | core/src/managed/card_authentication.cpp:258-275 | Succeeds exactly when answered within the captured generation; an unsent failure leaves the fields to the caller, any other kills the card |
| `CardAuthentication.RunWithoutIso` | core/src/managed/card_authentication.cpp:246-270 | The ISO session is out during a native handshake and back exactly when nothing was sent |
| `CardAuthentication.AuthenticateNativeLocked` | core/src/managed/card_authentication.cpp:227-355 | Success installs exactly the proved session in the captured generation; the identity of a First is the one in the handshake's answer, NonFirst hands on identity and counter; an exactly named unsent failure changes nothing, any other kills the card |
| `CardAuthentication.ProveNative` | core/src/managed/card_authentication.cpp:238-291 | The exact condition under which a handshake installs its session, with the identity the card answered to a First; rollback when unsent, an unusable card otherwise, and which error |
| `CardAuthentication.InstallNative` | core/src/managed/card_authentication.cpp:286-291 | The new session, its key and nothing else: no other session, no pending reset, the selection kept |
| `CardAuthentication.AuthenticateNative` | core/src/managed/card_authentication.cpp:359-590 | The exact condition for success over key source, preflight and handshake, and otherwise the first reason in order; the identity of a First is the one in the handshake's answer; at most one key call, before the one handshake with that key; handed over in the captured generation exactly when no change was reported from the look to the lease, key call included; exact rollback of an unsent failure in an unchanged generation |
| `CardAuthentication.AuthenticateIsoLocked` | core/src/managed/card_authentication.cpp:593-637 | As for native authentication, with all three sessions and the key moved out and restored together |
| `CardAuthentication.AuthenticateIsoAes` | core/src/managed/card_authentication.cpp:640-707 | The exact condition for success, and otherwise the first reason in order; one key call at most, the exact condition for a hand-over in the captured generation, exact rollback of an unsent failure |
| `TransactionPlan.QueriedFilesCover` | core/src/managed/card_transactions.cpp:136-160 | Every operation's file is among the queried ones, and the queried ones are distinct and legal |
| `TransactionPlan.QueriedInOrderOfUse` | core/src/managed/card_transactions.cpp:136-160 | Files are queried in the order in which operations first use them, as many before an operation as were used before it |
| `TransactionPlan.MutationsMean` | core/src/managed/card_transactions.cpp:55-69 | A transaction consists of exactly the commands of seven opcodes on files 0 to 31 with empty responses that end no session |
| `TransactionPlan.FollowsIsWorded` | core/src/managed/card_transactions.cpp:136-215 | What follows the plan is, field by field, the settings queries, the mutations and a commit whose option byte and response length are those of the receipt asked for |
| `TransactionPlan.PlanIsBounded` | core/src/managed/card_transactions.cpp:109-111 | A plan has one command per distinct file, one per mutation and one commit, at most 161 |
| `TransactionPlan.BudgetsFitTheDeadline` | core/src/managed/card_transactions.cpp:113-127 | Budgets are positive, never above the caller's timeout and never grow; an exchange within its budget ends less than a millisecond after the deadline |
| `TransactionPlan.NextStaysOnCourse` | core/src/managed/card_transactions.cpp:180-183 | Handing over the next command of the plan with the remaining time keeps order, budgets and punctuality of the whole transaction |
| `CardTransactions.RemainingOptions` | core/src/managed/card_transactions.cpp:115-127 | A budget exists exactly without a stop and before the deadline, and is the rest rounded up |
| `CardTransactions.RunNext` | core/src/managed/card_transactions.cpp:180-183 | The next command of the plan goes out at most once, under the remaining budget, and its value is what the card answered; with nothing in the way it succeeds |
| `CardTransactions.LookUpSettings` | core/src/managed/card_transactions.cpp:136-158 | The settings used are the card's own, whether cached or queried, and each file is queried once |
| `CardTransactions.CheckOne` | core/src/managed/card_transactions.cpp:136-176 | An operation passes only on a file of its type and mode, and does pass there when nothing else fails |
| `CardTransactions.WellAimedIsAllSuit` | core/src/managed/card_transactions.cpp:160-176 | The checks pass exactly on backup files for writes, value files for value commands, record files for record commands, each in the file's mode, which clearing records alone need not meet |
| `CardTransactions.CheckSettings` | core/src/managed/card_transactions.cpp:135-177 | All operations are checked against true settings with one query per distinct file and nothing changed on the card |
| `CardTransactions.AbandonStaging` | core/src/managed/card_transactions.cpp:185-194 | Once anything is staged the outcome becomes uncertain and the card unusable |
| `CardTransactions.StageAll` | core/src/managed/card_transactions.cpp:179-197 | Mutations are staged in order; a definite error means at most the first was tried and nothing is committed |
| `CardTransactions.CommitOnce` | core/src/managed/card_transactions.cpp:198-215 | One commit, whose answer is the receipt; every error from here on is uncertain, and the card holds all or nothing |
| `CardTransactions.AdmitTransaction` | core/src/managed/card_transactions.cpp:105-133 | Passes exactly on a usable card without ISO session, with 1 to 128 mutations and a positive timeout; nothing is sent |
| `CardTransactions.ExecuteTransaction` | core/src/managed/card_transactions.cpp:102-219 | Success commits exactly all mutations in order and returns what the card answered to the commit; any error leaves the committed state fully old or fully new, and old unless uncertain; the reader hears a prefix of the plan, command by command, at most 161, no mutation before all are checked; no command is given less time than the caller has left, and with budgets honoured and no idle time the whole transaction ends less than a millisecond after its deadline; with nothing in the way it succeeds; an exactly named refusal changes nothing |
| `Handles.StepKeeps` | c-api/src/detail/internal.hpp:158-310 | Every step of every thread keeps lock, activity, registry and call stacks in agreement |
| `Handles.RunKeeps` | c-api/src/detail/internal.hpp:158-310 | So does every interleaving from the empty registry |
| `Handles.MutualExclusion` | c-api/src/detail/internal.hpp:246-310 | At most one operation body runs per handle, re-entry included |
| `Handles.NoBodyAroundClose` | c-api/src/runtime.cpp:306-326 | While a body runs, no close has succeeded and none holds the entry |
| `Handles.ExactlyOneCloseSucceeds` | c-api/src/runtime.cpp:306-326 | Of all closes of a handle that reach the registry exactly one succeeds, and the handle is registered exactly until then |
| `Handles.HandlesAreNeverReused` | c-api/src/runtime.cpp:273-304 | A handle given out is nonzero, unused before, larger than all earlier ones and names an idle, open entry; an exhausted counter gives none |
| `Handles.RefusedForAReason` | c-api/src/detail/internal.hpp:258-280 | A call is refused exactly if another thread has the lock, the entry is active or, for an invoke, closed; otherwise it goes on, and past its last test runs its body |
| `Handles.InvokeRuns` | c-api/src/detail/internal.hpp:258-280 | From every reachable state an invoke on a live handle that nobody holds runs its body |
| `Handles.CloseErases` | c-api/src/runtime.cpp:306-326 | From every reachable state a close of a live handle that nobody holds takes it out of the registry and gives the lock back |
| `Handles.BodyEnds` | c-api/src/detail/internal.hpp:275-280 | The end of a body clears the activity and gives the lock back |
| `OperationGuard.Admission.Enter` | core/src/managed/operation_guard.hpp:25-30 | A guard is entered exactly if no other is alive |
| `OperationGuard.Admission.Leave` | core/src/managed/operation_guard.hpp:32-37 | Destroying a nested guard never clears the outer one's admission |
| `OperationGuard.Drive` | core/src/managed/operation_guard.hpp:25-57 | Over any schedule of any threads: a thread gets in exactly if the lock is free or its own, the flag is up exactly while guards are alive, all of one thread, and exactly the outermost is admitted |
| `RawSessions.RawEntry.ClearSessions` | c-api/src/raw.cpp:45-50 | No session and no binding is left |
| `RawSessions.RawEntry.RequireCurrentSession` | c-api/src/raw.cpp:57-65 | Passes exactly when the bound generation is the reported one; otherwise every session is gone |
| `RawSessions.RawEntry.ExchangeUnprotected` | c-api/src/raw.cpp:297-432 | The command asked for leaves with no session held, exactly while its lease holds; success is a kept and answered lease and returns the answer; which error otherwise |
| `RawSessions.LeasedExchange` | core/src/native/raw/channel.cpp:62-146 | The command goes out exactly if the lease's generation still holds, and its answer counts exactly if it holds to the end; which error otherwise |
| `RawSessions.RawEntry.Authenticate` | c-api/src/raw.cpp:435-646 | The exact conditions for sending that handshake and for success, which leaves exactly one session, of the requested family, EV2 at counter zero with the identity the card answered; which error otherwise; born under the lease, it is bound to the generation it was born in exactly when no change was reported as the binding was read |
| `RawSessions.RawEntry.AuthenticateNonFirst` | c-api/src/raw.cpp:649-702 | The exact conditions for sending the handshake and for success, which hands on identity and counter; which error otherwise; the renewed session is bound to the generation it was born in exactly when no change was reported as the binding was read; any failure of a running chain drops it |
| `RawSessions.RawEntry.ExchangeSecure` | c-api/src/raw.cpp:922-1006 | A session protects a command exactly while its binding is the reported generation, its lease holds and a counter value is left; success returns what the card answered; which error otherwise; a failure or a session-ending command drops session and binding, an exception leaves both |
| `RawSessions.RawEntry.ExchangeIsoSecure` | c-api/src/raw.cpp:853-919 | Sent exactly under an ISO session born in the reported generation whose lease holds; success returns what the card answered, a read only if that generation is still reported after verification; which error otherwise, and the session survives exactly what was not sent; commands that reset authentication are refused |
| `RawSessions.RawEntry.Reset` | c-api/src/raw.cpp:259-270 | No session survives, whatever the transport answers |
| `RawSessions.PerformRaw` | c-api/src/raw.cpp:259-1006 | Each raw call adds at most one exchange, its own command under the protection it names, exactly on its stated condition |
| `RawSessions.RunRaw` | c-api/src/raw.cpp:45-65 | For any calls and any reader: the exchanges are exactly what the reader heard, at most one for each call and that call's own; at most one session; every unprotected exchange left with none and every protected one with a current binding; each EV2 chain keeps one identity and strictly growing counters; a protected command goes out in its session's birth generation exactly when no change was reported in the two unchecked windows |
| `RawSessions.StaleBindingWitness` | c-api/src/raw.cpp:453-472 | A run in which a session of generation one protects a command in generation two |
| `RawSessions.LateLeaseWitness` | c-api/src/raw.cpp:968-996 | A run in which a command admitted in generation one goes out and succeeds in generation two |
| `Polynomials.FeedIsExact` | foundation/src/bytes.cpp:107-121 | Up to one register width, two registers agree after their inputs exactly if register and input agreed bit by bit |
| `Polynomials.BurstIsDetected` | foundation/src/bytes.cpp:107-121 | For every generator and register width, an error within one width of consecutive bits changes the register, at any offset in any message |
| `Polynomials.OnlyTheRegisterClearsItself` | foundation/src/bytes.cpp:107-121 | Of all trailers of the register's width exactly its own content clears it |
| `Polynomials.UnnoticedExactlyWhenDivisible` | foundation/src/bytes.cpp:107-121 | Two bit strings collide exactly when their difference is a multiple of the generator |
| `Crc.Crc16` | foundation/src/bytes.cpp:101-121 | The byte-wise loop computes the bit-serial checksum of the transmitted bits with generator 0x8408 from 0x6363 |
| `Crc.Crc32` | foundation/src/bytes.cpp:124-143 | The byte-wise loop computes the bit-serial checksum of the transmitted bits with generator 0xEDB88320 from 0xFFFFFFFF |
| `Crc.StartAndLastBit` | foundation/src/bytes.cpp:101-143 | The empty message has the start value as its checksum, and flipping the bit transmitted last, the highest of the last byte, changes a checksum by exactly the generator |
| `Crc.BitBurstIsDetected` | foundation/src/bytes.cpp:101-143 | Messages differing within as many consecutive bits as the checksum has never collide |
| `Crc.ByteBurstIsDetected` | foundation/src/bytes.cpp:101-143 | Messages differing inside two neighbouring bytes differ in CRC16, inside four in CRC32 |
| `Crc.CollidesExactlyWhenDivisible` | foundation/src/bytes.cpp:101-143 | Messages of one length collide exactly when the generator divides their difference |
| `Crc.TrailerGivesZero` | foundation/src/bytes.cpp:101-143 | Of all trailers of the checksum's length exactly the checksum, low byte first, gives zero |
| `Hex.MakeDigitTable` | foundation/src/bytes.cpp:24-46 | The table gives each of the 256 characters the value of the digit it is, in either case, or -1; decoding looks digits up in it |
| `Hex.FromHex` | foundation/src/bytes.cpp:52-83 | Decoding succeeds exactly on even-length text of hexadecimal digits, and gives the bytes it denotes, the first digit of each pair being the high one |
| `Hex.ToHex` | foundation/src/bytes.cpp:86-98 | Two digits of 0123456789abcdef for each byte, high nibble first |
| `Hex.DecodedEncoded` | foundation/src/bytes.cpp:52-98 | Decoding an encoding gives the bytes back |
| `Hex.EncodedDecoded` | foundation/src/bytes.cpp:52-98 | Encoding a decoding gives the text back in lower case |
| `Hex.DecodingForgetsOnlyCase` | foundation/src/bytes.cpp:52-83 | Two texts decode alike exactly when they differ in case alone |
| `Hex.ConstantTimeEqual` | foundation/src/bytes.cpp:146-160 | True exactly on equal byte strings |
| `ReaderList.Readers` | transports/pcsc/src/pcsc.cpp:307-340 | Accepts exactly the buffers that are nonempty NUL-free names, each with its NUL, then NULs only, and returns those names; the unterminated-name branch cannot be reached |
| `ReaderList.DecompositionIsUnique` | transports/pcsc/src/pcsc.cpp:315-331 | A buffer decomposes into names in at most one way |
| `ReaderList.ListsReadBack` | transports/pcsc/src/pcsc.cpp:307-340 | Names laid out with any number of closing NULs are read back as they were |
| `OfflineMac.LicenseMac` | core/src/offline/mifare_classic_license.cpp:16-47 | Refuses exactly the malformed requests; otherwise the odd-indexed bytes of the CMAC of the license input, or the provider's failure |
| `OfflineMac.LicenseInputIsInjective` | core/src/offline/mifare_classic_license.cpp:20-34 | No two pairs of license and secrets share an authenticated input |
| `OfflineMac.ConfigurationMac` | core/src/offline/delegated_application.cpp:104-131 | Refuses exactly the malformed requests; otherwise the odd-indexed bytes of the CMAC of the two padded names, or the provider's failure |
| `OfflineMac.ConfigurationInputIsInjective` | core/src/offline/delegated_application.cpp:113-118 | No two pairs of DF names share an authenticated input |
| `OfflineMac.DerivationVectorIsInjective` | core/src/offline/transaction_mac.cpp:25-35 | Every key kind, counter and UID has a derivation vector of its own, one block long |
| `OfflineMac.DeriveKeys` | core/src/offline/transaction_mac.cpp:17-45 | Both keys exist exactly on valid inputs when both CMACs are one block, over vectors given by position: label 0x5A or 0xA5, counter low byte first, UID; the first failure is reported |
| `OfflineMac.TransactionMac` | core/src/offline/transaction_mac.cpp:48-70 | The odd-indexed bytes of the CMAC, exactly for a block key and an input of one byte to 16 MiB |
| `OfflineMac.VerifyTransactionMac` | core/src/offline/transaction_mac.cpp:73-90 | Exactly when verification answers, and exactly when it answers yes: the eight bytes are the odd-indexed bytes of the CMAC under the derived key; otherwise the first reason in order |

## Left out

- Cryptographic primitives: CMAC is an unknown function that may fail, throw or answer with a wrong length; session keys, secure messaging and signatures are not modelled.
- Command builders and response parsers: a command carries the fields the managed layer looks at, a response says whether it decodes; building the commit command always succeeds, so the branch at core/src/managed/card_transactions.cpp:203-206 is not taken.
- CardRuns.Run: does not contain `key_version`, which reports an uncertain outcome for a wrong response length without invalidating the card, nor the other one-line forwards to `execute`, which add nothing to it.
- Handles.MutualExclusion: the entry's card and session fields are not part of the registry machine; managed cards and raw entries are proved as sequential objects, which the mutual exclusion of bodies justifies.
- Reader.Reader.ReadGeneration: the wrap-around of the 64-bit generation counter is not modelled.
- OperationGuard.Drive: a thread that would wait for the recursive lock takes its turn later; the `busy` answers built on a guard are not repeated in each card method.
- A card exchanged for another one: the staged and committed state is that of one card, and what a swapped card holds is not described.
- Descriptor range checks, output buffers, APDU conversion and checked ISO command decoding of the C interface: validation and forwarding only.
- Key providers of raw authentication: whether a key is obtained is a parameter, which is true for the variants that are given the key.
- Delegated-application creation and deletion MACs, delegated default-key encryption and reader-identifier decryption: the same truncation over inputs of other builders.
- PC/SC system calls, the Node addon, language bindings, memory wiping, timing behaviour, allocation failure other than as an exception, and message texts.
