# Multi-signature signing sessions: a model with proofs

The repository coordinates the signing of Hedera transactions by several people: a server holds a
session, a coordinator injects a frozen transaction, participants send signatures over WebSockets, and
the server submits the transaction to the network once enough of them verify. This project models that
protocol and the parsing, limiting and sampling code around it, and proves what holds in every run.

## How the project is laid out

- `SessionProtocol` is the session as a state machine on values: the record the store keeps, the
  sockets, the pending expiry timers, and a history of injections, submissions and deliveries that only
  the theorems read. There is one transition function per handler. A handler is taken as one atomic step
  (see "Left out"); an execution is two steps, since it waits for the network in between and any other
  handler may run then.
- `SessionInvariant` has the inductive invariant and one preservation lemma per handler. `SessionRuns`
  has the theorems about whole runs, `SignerIdentity` those about who stands behind the signatures, and
  `Witnesses` runs in which the session's promises fail.
- `SessionSteps` tells every step a second time, field by field instead of handler by handler: which steps
  touch a field, under which condition, and what it becomes. It also says when each status is entered, what
  every outcome of a submission means, and what exactly is sent to the network.
- `SignatureLocks` is the promise chain that queues submissions and executions, and `LockedSession`
  puts chain and session together: the chain is what entitles `SessionProtocol.Enabled` to keep
  submissions and executions out while one executes.
- `SessionStore`, `SigningSessionManager`, `WebSocketServer` and `TimerController` are the classes that
  update live objects in place. Each method's contract gives the new state of the session as the
  transition function of the old one; `WebSocketServer.Server.Perform` puts them together, so that
  whatever happens to a session at the server is a run of the machine and touches no other session.
- `SignatureVerifier`, `OfflineSigning`, `Base64`, `Text` and `KeyUtils` are the signature tuples: text
  form, decoding, verification, and the comparison of public keys.
- `AuthRateLimit`, `PolicyEngine` and `TokenGeneration` are the two rate limiters, the approval rules and
  the rejection sampling.

The Hedera SDK is a value of type `Sdk`: four arbitrary functions for parsing a key, verifying a
signature, listing the bodies of a transaction and accepting an attached list. Every theorem holds for
any choice of them. Time is an argument of every step; each step reads the clock once.

## What the code does not promise

Where a stated or documented property fails, the code was followed and the exact condition proved.

- A participant can miss the transaction in flight in exactly three ways (`StepDelivers`): the manager
  injects directly, a participant not yet served calls itself ready by STATUS_UPDATE, or one reconnects
  while still marked ready, since the close of the old socket comes later. Each of them happens in some
  run (`EachWayLeavesSomeoneOut`).
- A reset leaves the expiry timer armed. An injection by the manager over it, and nothing else, makes
  the timer stale (`StepKeepsTimersCurrent`), and it then wipes the newer transaction
  (`StrandedTimerWipesNewerTransaction`).
- The states documented as terminal are left: before the session's own expiry by injection, rejection,
  expiry timers, cancellation and a late network answer, and past it by every step that reads the
  session, so that not even a completed session stays completed (`TerminalStatesAreLeftBy`, with the
  exceptions). No transaction is submitted twice all the same.
- The 120-second window belongs to an injection: a transaction the session was created with is never
  late (`LateExactlyAfterInjection`).
- The threshold counts key strings as they were sent. One signer who signs under two spellings of a key
  meets a threshold of two (`OneSignerMeetsThresholdTwo`); the signers are as many as the entries exactly
  while no accepted submission comes under a string that spells a stored key
  (`SignersAreDistinctExactly`). The offline verifier counts tuples, so one tuple sent often enough meets
  any threshold (`RepeatedTupleCounts`).
- A negative threshold is accepted and stored. The session then submits a transaction without any
  signature, and exactly a threshold of at least one rules that out (`UnsignedIsSubmittedExactly`). A
  session is created with such a threshold exactly if it is not configured with a negative one; and one
  created without its transaction is not checked for a threshold its keys cannot reach
  (`SigningSessionManager.Manager.CreateSession`).
- With `autoExecute` on, the submission that meets the threshold never returns (`AutoExecuteDeadlocks`).
- A signature whose base64 text begins with `0x` is read as hex by the verifier but not by the signer's
  own check (`SignatureSurvivesDecoding`, `SelfCheckAlwaysPasses`). The DER text of an ECDSA key, which
  the signer may print, is refused by the tuple parser (`EcdsaDerTupleIsRefused`).
- The attached lists have the submitted body count only under a condition on the signers
  (`SubmittedCountsMatchExactly`).
- The authentication limiter's bound is kept in every run exactly if it allows some attempt and its block
  lasts at least as long as its window and some time (`BoundIsKeptExactly`). The periodic cleanup forgets
  even blocked addresses, which is how a shorter block breaks the bound (`ShorterBlockOverfills`).
- The PIN alphabet has 31 characters, so 248 byte values are accepted; the comment beside it says 30
  and 240 (`AlphabetSizes`).
- In the treasury policy a `maxHbar` or `maxPerHour` of zero adds no rule, and an amount that is not a
  number passes the amount and recipient rules (`TreasuryApprovesExactly`).

## Model

| member | source | states |
|---|---|---|
| SessionInvariant.StepKeepsInv | server/WebSocketServer.js:970-1678 | every handler, in any interleaving, keeps: waiting means no transaction; signatures only with a transaction; each stored entry eligible, non-empty, verified for the current transaction and in time; counters exact; every submission backed; submitted epochs increasing; the submitted transaction unexecutable afterwards |
| SessionInvariant.CreatedSatisfiesInv | server/SessionStore.js:31-91 | a new session, with or without a transaction and whatever its threshold, satisfies the invariant |
| SessionInvariant.NewTransactionKeepsInv | server/WebSocketServer.js:1269-1286 | an injection over any state, executed, executing or failed, keeps the invariant because the old signatures are gone |
| SessionInvariant.AddSignatureKeepsInv | server/SessionStore.js:266-306 | storing a checked entry keeps the invariant and the collected counter exact |
| SessionInvariant.SubmitKeepsInv | server/SigningSessionManager.js:455-536 | a submission, accepted or rejected at any of its checks, keeps the invariant |
| SessionInvariant.AssembledIsBacked | server/SigningSessionManager.js:636-745 | what is assembled for the network, all bodies or the first after the downgrade, carries for every body sent a verifying signature at its index from every signer, and there are at least threshold of them |
| SessionInvariant.BeginKeepsInv | server/SigningSessionManager.js:605-752 | starting an execution keeps the invariant, and the epoch it submits was not submitted before |
| SessionInvariant.FinishKeepsInv | server/SigningSessionManager.js:756-830 | a late network answer, whatever happened during the wait, keeps the invariant |
| SessionRuns.RunKeepsInv | server/WebSocketServer.js:970-1738 | the invariant holds at the end of every run |
| SessionSteps.StepAsTabled | server/WebSocketServer.js:970-1738 | every step changes the status, the transaction, its time of receipt, the mode, the signatures, every participant, the counters, the sockets, the timers, the lock and the history exactly as the tables say, past the session's expiry and before it; after an injection or a rejection whoever signed or rejected is ready again, or connected without keys |
| SessionSteps.StatusIsEnteredBy | server/SessionStore.js:146-160 | each status is entered only by the steps that stand for it, and the two that are never written are never entered |
| SessionSteps.RejectedExactly | server/SigningSessionManager.js:461-533 | each reason for rejecting a submission is given exactly when its check fails and all before it pass, and otherwise it is accepted |
| SessionSteps.AcceptedMeansStored | server/SigningSessionManager.js:535-570 | an accepted submission reports the threshold as met exactly if the signatures held after it are as many as asked for, and what it sent is stored whole |
| SessionSteps.ExecutionEnds | server/SigningSessionManager.js:752-827 | in time, an executing session becomes completed or execution-failed with the network's answer, and one that passes the checks but sends nothing becomes execution-failed |
| SessionSteps.CompletedSinceAccepted | server/SigningSessionManager.js:755-756 | in every run a completed session has been so ever since the network accepted an execution |
| SessionSteps.FailedSinceRefused | server/SigningSessionManager.js:815-827 | in every run a failed session has been so ever since the network refused an execution or one sent nothing |
| SessionSteps.SubmitsExactly | server/SigningSessionManager.js:605-752 | an execution sends a transaction exactly if the session is in time, not in a refusing state and holds enough signatures, and the transaction and every key with its list are taken |
| SessionSteps.SubmittedExactly | server/SigningSessionManager.js:667-746 | every submission of every run is of the latest transaction its execution found: the first body alone with first signatures if some signer had fewer than the several bodies, else all bodies with all signatures |
| SessionProtocol.WrittenAsGiven | server/SessionStore.js:149-158 | every status is written as given, whether documented or not, but the legacy one as signing |
| SessionRuns.EverySubmissionIsBacked | server/SigningSessionManager.js:605-752 | in every run each network submission is of a transaction the session was given, of all its bodies or its first, with at least as many eligible keys as the threshold asks for, each verifying at every index, begun before the session's expiry |
| SessionRuns.SubmittedAtMostOnce | server/SigningSessionManager.js:609-624 | in every run no injected transaction is submitted twice, whether its execution succeeded or failed |
| SessionRuns.NoResubmission | server/SigningSessionManager.js:821-827 | from any reachable state, a transaction already submitted is not submitted again by any continuation |
| SignerIdentity.SubmittedCountsMatchExactly | server/SigningSessionManager.js:672-745 | for every submission of every run, the attached lists have exactly the submitted body count if and only if its execution was downgraded or found no signer with more signatures than bodies |
| SessionRuns.AttachedCountsMatch | server/SigningSessionManager.js:672-745 | the same of one assembly, for the record it is given |
| SignerIdentity.SignersAreDistinctExactly | server/SigningSessionManager.js:500-508 | in every run the signers behind the stored signatures are as many as the entries if and only if, since the last clearing step, no accepted submission came under a string that spelled a key stored by then |
| SignerIdentity.SubmittedSignersAreDistinctExactly | server/SigningSessionManager.js:626-745 | the same of the keys every submission of every run carries, up to the execution that made it |
| SignerIdentity.SubmissionBegins | server/SigningSessionManager.js:605-752 | every submission of a run is what one of its executions assembled from the record it found with the threshold met |
| Witnesses.OneSignerMeetsThresholdTwo | server/SessionStore.js:292-298 | for every raw key a run in which its holder alone, signing as raw and as 0x raw, meets a threshold of two and the transaction is submitted |
| Witnesses.UnsignedIsSubmitted | server/SigningSessionManager.js:626-628 | with any threshold that is not positive, a run that submits the injected bodies with no signature |
| Witnesses.UnsignedIsSubmittedExactly | cli/commands/server.js:77-82 | no run submits a transaction without signatures if and only if the threshold is at least one |
| SessionRuns.StepOnSignatures | server/SessionStore.js:266-358 | a step empties the signature map, adds the one key it accepted, or leaves the map alone, and which of these is decided before the step |
| SessionRuns.SignaturesAreAcceptedSubmissions | server/SigningSessionManager.js:536-536 | the map has as many entries as submissions were accepted since the last clearing step |
| SessionRuns.CountersAreExact | server/SessionStore.js:207-306 | in every run signaturesCollected is the map size and the accepted submissions since the last clear, and participantsConnected is the number of participants held |
| SessionRuns.SignaturesOnlyGrow | server/SessionStore.js:366-412 | between clearing steps no stored signature changes or goes, and a met threshold stays met |
| SessionRuns.EveryStoredSignatureIsGood | server/SigningSessionManager.js:455-536 | in every run each stored signature is eligible, verifies for the transaction held now, and was accepted before the session's expiry and within 120000 ms of the injection in a realtime session |
| SessionRuns.LateExactlyAfterInjection | server/SigningSessionManager.js:488-493 | in every reachable state a well-formed submission to a session that accepts signatures is refused for lateness if and only if the transaction was injected, the session is realtime and more than 120000 ms have passed since the injection |
| SessionRuns.RunKeepsWindowFits | server/SessionStore.js:555-573 | in every run only an injection sets a time of receipt |
| SessionRuns.TerminalStatesAreLeftBy | shared/protocol.js:91-125 | exactly the steps of LeavesTerminal leave a documented terminal state, before the session's expiry and past it |
| SessionRuns.DocumentedTerminalStates | shared/protocol.js:91-125 | the states documented as terminal are completed, execution-failed, expired and cancelled |
| SessionRuns.StepDelivers | server/WebSocketServer.js:1105-1161 | a step keeps "no ready participant with an open socket misses the transaction in flight" if and only if it is not one of the three steps of LeavesSomeoneOut |
| Witnesses.EachWayLeavesSomeoneOut | server/WebSocketServer.js:873-886 | for each of the three steps a run from a new session after which nobody misses the transaction, until that step |
| SessionRuns.RunDelivers | server/WebSocketServer.js:1269-1351 | in every run without those steps nobody misses the transaction in flight |
| SessionRuns.StepKeepsTimersCurrent | server/WebSocketServer.js:1274-1303 | a step keeps every pending expiry timer the latest injection's if and only if it is not an injection by the manager over a pending timer |
| SessionRuns.TimersFireForTheLatest | server/WebSocketServer.js:1369-1417 | in every run without such an injection an expiry callback runs only for the latest injection |
| SessionRuns.StrandedTimerWipesNewerTransaction | server/WebSocketServer.js:1433-1495 | inject, reset, inject by the manager: the first transaction's timer wipes the second |
| SignatureLocks.OneAtATimeInOrder | server/SigningSessionManager.js:440-452 | in every run a section that has started finds every earlier one over: mutual exclusion and first in, first out |
| SignatureLocks.SettledIffAllEnded | server/SigningSessionManager.js:443-448 | awaiting the tail of the chain is the same as awaiting every earlier section |
| SignatureLocks.FirstUnendedCanMove | server/SigningSessionManager.js:599-602 | the first section not over can always start or end, also after earlier ones threw |
| SignatureLocks.EveryQueuedSectionRuns | server/SigningSessionManager.js:581-603 | with auto-execution off, in every run with any arrivals and any mixture of throws, the sections up to a queued one make at most the moves left to them, and the queued one has ended exactly when they have made them all, which is exactly when none of them can move |
| SignatureLocks.EveryMoveCounts | server/SigningSessionManager.js:581-603 | each start or end of a section up to a given one takes one from what is left to do, in every run |
| SignatureLocks.EndedIffNothingMoves | server/SigningSessionManager.js:581-603 | a section has ended if and only if nothing up to it can start or end |
| SignatureLocks.SomeScheduleEnds | server/SigningSessionManager.js:581-603 | from every state of a chain without nesting some schedule of starts and ends alone ends a queued section |
| SignatureLocks.MoveStaysPossible | server/SigningSessionManager.js:581-603 | a start or end that is possible stays possible until it is taken |
| SignatureLocks.NestingSticks | server/SigningSessionManager.js:561-564 | a submission that awaits an execution of its own session is stuck at once |
| SignatureLocks.AutoExecuteDeadlocks | server/SigningSessionManager.js:561-564 | and in no continuation does it end or a later section start |
| LockedSession.LockEnables | server/SigningSessionManager.js:440-603 | a submission or execution whose turn has come finds no execution in progress, and an answer finds one |
| LockedSession.LockedRunIsSessionRun | server/SigningSessionManager.js:440-603 | every run that goes through the promise chain is a run of the session machine, with the same final session |
| LockedSession.LockedRunsAreSafe | server/SigningSessionManager.js:593-752 | so in every such run submissions are backed and none is repeated, however requests are queued |
| SessionStore.Store.constructor | server/SessionStore.js:14-22 | limits that are missing or zero become 100 sessions and 30 minutes |
| SessionStore.Store.ComputeExpiresAt | server/SessionStore.js:586-590 | zero and null mean no expiry, absent means the store's default, which is never zero |
| SessionStore.Store.CreateSession | server/SessionStore.js:31-91 | adds the new session under its id unless the store is full |
| SessionStore.Store.GetSession | server/SessionStore.js:99-114 | reading a session past its expiry marks it expired, and changes nothing else |
| SessionStore.Store.UpdateStatus | server/SessionStore.js:146-160 | writes the status even when the transition is undocumented, with the legacy name mapped |
| SessionStore.Store.AddParticipant | server/SessionStore.js:207-237 | adds one participant and counts it |
| SessionStore.Store.UpdateParticipantStatus | server/SessionStore.js:246-257 | changes that participant's status only |
| SessionStore.Store.AddSignature | server/SessionStore.js:266-306 | stores the entry, marks the participant signed and recounts, or throws and changes nothing |
| SessionStore.Store.ClearTransactionState | server/SessionStore.js:326-358 | empties the signatures and resets exactly the signed and rejected participants, which it returns |
| SessionStore.LiveSession.ResetStaleParticipants | server/SessionStore.js:333-357 | the loop over the participants, against the pointwise reset |
| SessionStore.Store.RemoveParticipant | server/SessionStore.js:366-397 | drops the participant, or keeps a signed or rejected one as disconnected, with the counters |
| SessionStore.Store.IsThresholdMet | server/SessionStore.js:405-412 | true exactly if the session exists and holds at least threshold signatures |
| SessionStore.Store.SetParticipantReady | server/SessionStore.js:487-509 | marks keys loaded and ready, counting a participant once |
| SessionStore.Store.InjectTransaction | server/SessionStore.js:555-573 | stores the transaction if and only if the session is waiting |
| SessionStore.Store.CleanUpExpiredSessions | server/SessionStore.js:645-708 | marks exactly the sessions past expiry that are not completed, deletes exactly those five minutes past it, and keeps the others' objects |
| SigningSessionManager.Manager.CreateSession | server/SigningSessionManager.js:50-180 | exactly when creation is refused, and that a session created asks for at least one signature if and only if the configured threshold is not negative |
| SigningSessionManager.CreationExactly | server/SigningSessionManager.js:72-155 | which configurations are refused, and that the default threshold is half of the keys, rounded up |
| SigningSessionManager.Manager.TimeoutExactly | server/SigningSessionManager.js:67-69 | when a session expires, by the timeout asked for, the mode and the manager's defaults |
| SigningSessionManager.Manager.CheckTuple | server/SigningSessionManager.js:470-533 | the first check that fails, in order, with the signatures verified against the stored transaction |
| SigningSessionManager.Manager.SubmitSignature | server/SigningSessionManager.js:454-571 | the outcome and the whole new record, also of a submission rejected after the status moved to signing |
| SigningSessionManager.SomeListIsShort | server/SigningSessionManager.js:667-674 | true exactly if some signer sent fewer signatures than there are bodies |
| SigningSessionManager.DecodeList | server/SigningSessionManager.js:731-744 | the bytes attached for one signer: the first signature after a downgrade, otherwise all, each decoded as hex or base64 |
| SigningSessionManager.AttachAll | server/SigningSessionManager.js:725-746 | the attached map is complete if and only if every key parses and every list fits |
| SigningSessionManager.Manager.AssembleTransaction | server/SigningSessionManager.js:636-746 | the SDK transaction trimmed and filled in place is the assembled submission, or none where something throws |
| SigningSessionManager.Manager.BeginExecution | server/SigningSessionManager.js:605-752 | the session after the start of an execution, and that the transaction returned is the one submission recorded |
| SigningSessionManager.Manager.ExecutionError | server/SigningSessionManager.js:815-830 | only a session still marked executing becomes failed |
| SigningSessionManager.Manager.FinishExecution | server/SigningSessionManager.js:752-830 | the session after the network has answered either way |
| SigningSessionManager.Manager.InjectTransaction | server/SigningSessionManager.js:938-1015 | injects if and only if the session, as read, is waiting and the transaction is frozen |
| SigningSessionManager.Manager.CancelSession | server/SigningSessionManager.js:859-866 | writes cancelled whatever the status was |
| WebSocketServer.Server.CreateSession | server/SessionStore.js:31-91 | a created session is the machine's initial state and satisfies the invariant, asks for at least one signature if and only if the configured threshold is not negative, and every other session stays as it is |
| WebSocketServer.Server.SendToEach | server/WebSocketServer.js:382-390 | the message goes exactly once to each given participant with an open socket and to nobody else |
| WebSocketServer.Server.BroadcastToSession | server/WebSocketServer.js:375-397 | the same for a session's participants, and a broadcast transaction counts as delivered to exactly those |
| WebSocketServer.Server.Announce | server/WebSocketServer.js:1319-1351 | each reset participant's new status goes once to everyone reachable before the news does, and nothing else is sent |
| WebSocketServer.ToldExactly | server/WebSocketServer.js:382-390 | whoever a broadcast is meant for gets that message, nobody gets it twice, nobody else gets anything |
| WebSocketServer.Server.ReachesExactly | server/WebSocketServer.js:382-390 | a broadcast is meant for the session's participants with an open connection other than the one left out |
| WebSocketServer.Server.HandleTransactionInject | server/WebSocketServer.js:1249-1351 | the machine's injection step, timer included; the session is told it expired if its lifetime is over, and otherwise the new status of exactly those who had signed or rejected, then the transaction, and everyone counted as served is in the message log |
| WebSocketServer.Server.ReplaceTransaction | server/WebSocketServer.js:1269-1286 | the old state is cleared, its timer disarmed, and the new transaction stored |
| WebSocketServer.Server.SetUpExpiry | server/WebSocketServer.js:1288-1317 | a transaction past its lifetime is expired at once, another gets a timer with a fresh id |
| WebSocketServer.Server.HandleTransactionExpired | server/WebSocketServer.js:1369-1418 | the machine's expiry step; the session is told exactly when there was something to expire |
| WebSocketServer.Server.ExpiryTimerFires | server/WebSocketServer.js:1301-1304 | the fired timer is gone, the session is expired, and told so exactly if there was something to expire |
| WebSocketServer.Server.HandleResetTransaction | server/WebSocketServer.js:1433-1517 | the machine's reset step, which leaves the timer; the session is told exactly where a reset is allowed |
| WebSocketServer.Server.HandleTransactionRejected | server/WebSocketServer.js:1614-1678 | the machine's rejection step, from any participant in any state; the session is told the new status of the rejecting participant and of everyone reset, then who rejected |
| WebSocketServer.Server.HandleScheduleAnnounce | server/WebSocketServer.js:1539-1607 | the session becomes scheduled and is told so |
| WebSocketServer.Server.HandleParticipantReady | server/WebSocketServer.js:1105-1161 | the machine's ready step; the session is told who is ready, then a transaction in flight is sent to the late joiner, and who is not a participant is sent an error |
| WebSocketServer.Server.HandleStatusUpdate | server/WebSocketServer.js:970-985 | any text is accepted as the participant's status and passed on to the session |
| WebSocketServer.Server.HandleSignatureSubmit | server/WebSocketServer.js:991-1072 | the machine's submission step, and an execution is queued exactly when the threshold is met; the signer is told the outcome, then the session of an accepted signature and of a met threshold |
| WebSocketServer.Server.BeginExecution | server/WebSocketServer.js:1685-1691 | the machine's start of an execution, with EXECUTION_FAILED announced at once if it fails before the network and nothing otherwise |
| WebSocketServer.Server.FinishExecution | server/WebSocketServer.js:1691-1738 | the machine's end of an execution, with TRANSACTION_EXECUTED or EXECUTION_FAILED announced to the session |
| WebSocketServer.Server.HandleClose | server/WebSocketServer.js:587-605 | the machine's close step, and those who remain are told |
| WebSocketServer.Server.Join | server/WebSocketServer.js:871-960 | the machine's join step, and the others are told |
| WebSocketServer.Server.Reconnect | server/WebSocketServer.js:873-886 | the machine's reconnect step: same id, new socket, and the others are told |
| WebSocketServer.Server.Perform | server/WebSocketServer.js:480-613 | whatever happens to a session is the machine's step for it followed at most by reads, keeps the machine's invariant, and leaves the view of every other session and what its handlers rely on unchanged |
| WebSocketServer.Server.SocketStopsBeingOpen | server/WebSocketServer.js:385-388 | the participant stays connected but is not sent to |
| TimerController.RunAgrees | shared/TimerController.js:24-170 | in every run the host's armed timers are exactly the registry's handles, one entry each, and nothing remains after shutdown |
| TimerController.SetRegisters | shared/TimerController.js:24-71 | a timer gets a new id and a handle of its own, and after shutdown nothing is set |
| TimerController.TimeoutFiresOnce | shared/TimerController.js:30-33 | in every run only an interval fires twice |
| TimerController.MatchingExactly | shared/TimerController.js:103-106 | a timer matches exactly if its name begins with the prefix |
| TimerController.NamedAfterId | shared/TimerController.js:36-39 | a timer without a name is named after its kind and its id in decimal |
| TimerController.DisarmedForever | shared/TimerController.js:24-170 | a handle no longer armed is never armed again, an id is never given to another timer, and nothing is armed after everything was cleared |
| TimerController.ClearedNeverFires | shared/TimerController.js:79-93 | no run after a clear contains a firing of the cleared timer |
| TimerController.Controller.SetTimeout | shared/TimerController.js:24-44 | the registry's step, and no id while shutting down |
| TimerController.Controller.SetInterval | shared/TimerController.js:54-71 | the same for intervals |
| TimerController.Controller.Clear | shared/TimerController.js:79-93 | removes and disarms exactly that timer, and says whether it was there |
| TimerController.Controller.ClearNamed | shared/TimerController.js:101-110 | removes exactly the timers whose name has the prefix and returns their number |
| TimerController.Controller.GetStats | shared/TimerController.js:136-151 | the counts by kind, which add up to all timers |
| TimerController.Controller.ClearEverything | shared/TimerController.js:156-170 | nothing stays armed, shutdown is recorded, and the count is right |
| TimerController.Controller.HostFires | shared/TimerController.js:30-33 | a timeout is forgotten before its callback, an interval stays |
| SignatureVerifier.VerifySingle | core/SignatureVerifier.js:114-206 | valid exactly if the key parses and every pair verifies; the first failing pair is reported; a partial note exactly if the counts differ |
| SignatureVerifier.TupleVerifiesExactly | core/SignatureVerifier.js:114-206 | a tuple verifies exactly if its key parses, it has signatures in either form, there are bodies, and no signature that has a body fails |
| SignatureVerifier.Verify | core/SignatureVerifier.js:38-106 | valid exactly if enough tuples verify (all, without a threshold) and no unexpected key does |
| SignatureVerifier.UnexpectedKeySpoils | core/SignatureVerifier.js:68-82 | one verifying tuple under an unexpected key makes the list invalid |
| SignatureVerifier.RepeatedTupleCounts | core/SignatureVerifier.js:88-103 | one expected tuple sent n times is valid for exactly the thresholds up to n if it verifies, and for negative ones otherwise |
| SignatureVerifier.ParsePrint | core/SignatureVerifier.js:229-273 | parsing undoes printing exactly for keys of an accepted form |
| SignatureVerifier.PrintedAs | cli/sign.js:177-177 | a key, a colon, and the signatures with commas between |
| SignatureVerifier.AcceptedKeysAre | core/SignatureVerifier.js:249-255 | hex digits only: 64 of them, or 302a or 302e and at least one more |
| SignatureVerifier.SignatureTextsAre | core/SignatureVerifier.js:263-267 | at least one base64 character and then any padding |
| SignatureVerifier.Base64CharsAre | core/SignatureVerifier.js:263-266 | the characters accepted are the 64 that encoding writes |
| SignatureVerifier.PrintParseIsStable | core/SignatureVerifier.js:229-273 | printing and reparsing any accepted input changes nothing |
| SignatureVerifier.AcceptedInputIsNormalForm | core/SignatureVerifier.js:257-271 | an accepted input prints back to itself if and only if no field is empty or padded |
| SignatureVerifier.HexTextIsBase64Text | core/SignatureVerifier.js:263-266 | the hex alternative of the signature pattern admits nothing new |
| SignatureVerifier.ParseMultipleSignatureTuples | core/SignatureVerifier.js:281-299 | every input lands in exactly one list, in order |
| Base64.DecodeEncode | core/SignatureCollector.js:218-220 | decoding undoes encoding (section 4 of RFC 4648) |
| Base64.AlphabetIsStandard | core/SignatureCollector.js:218-220 | the alphabet of section 4 of RFC 4648, in its order |
| Base64.StandardVectors | core/SignatureCollector.js:218-220 | vectors of section 10 of RFC 4648 |
| Base64.HexSignatureIsRead | core/SignatureVerifier.js:164-173 | a signature written as 0x and hex, in either case, is read as the bytes it spells |
| Base64.EncodesAs0x | core/SignatureVerifier.js:164-173 | which bytes have a base64 text that begins with 0x |
| Base64.SignatureSurvivesDecoding | core/SignatureVerifier.js:164-173 | the verifier reads back a base64 signature if and only if it is not one of those |
| OfflineSigning.GenerateSignatures | core/SignatureCollector.js:268-277 | one tuple per key in order, or none if extracting the bodies throws |
| OfflineSigning.OfflineRoundTrip | cli/sign.js:161-177 | sign, print, parse, verify succeeds with as many signatures as bodies |
| OfflineSigning.OfflineRoundTripExactly | cli/sign.js:161-177 | and, where only the genuine signature verifies, exactly for accepted key forms and signatures not read as hex |
| OfflineSigning.SelfCheck | cli/sign.js:189-196 | the signer's check, which reads base64 only |
| OfflineSigning.SelfCheckAlwaysPasses | cli/sign.js:189-196 | it passes for every genuine signer, so it misses the hex reading |
| OfflineSigning.EcdsaDerTupleIsRefused | core/SignatureVerifier.js:249-255 | the DER text of an ECDSA key never parses back |
| KeyUtils.CanonicalOfSpelling | shared/crypto-utils.js:91-101 | raw, 0x, DER and 0x DER spellings in any case and padding give the raw hex; a spelling without DER does so exactly if the raw text has no DER prefix (section 4 of RFC 8410) |
| KeyUtils.EmptyKeyIsNotEligible | server/utils/keyUtils.js:43-48 | a blank key, or one with nothing after its prefixes, is never eligible |
| Text.TrimExactly | shared/crypto-utils.js:93-93 | trimming takes white space, by its code points, and nothing else |
| KeyUtils.CanonicalDecidesSameKey | shared/crypto-utils.js:91-101 | two spellings canonicalise alike if and only if they spell one key |
| KeyUtils.EligibilityIsBySpelledKey | server/utils/keyUtils.js:43-48 | a key is eligible if and only if the list holds the key it spells |
| AuthRateLimit.AtMostTwoWindowsOfFailures | server/WebSocketServer.js:626-694 | with a block at least as long as the window, a closed interval of one window without a success holds at most twice maxAttempts recorded failures, whenever the cleanup runs |
| AuthRateLimit.MaxAttemptsThenBlocked | server/WebSocketServer.js:626-674 | from a clean start exactly maxAttempts failures are recorded at one moment, then the address is blocked for the whole block and no longer |
| AuthRateLimit.ForgottenAfter | server/WebSocketServer.js:643-694 | a success forgets the record, a window that is over restarts the count, and the cleanup forgets it |
| AuthRateLimit.BoundIsKeptExactly | server/WebSocketServer.js:57-61 | every run keeps the bound if and only if maxAttempts is at least one and the block is at least the window and not zero |
| AuthRateLimit.ShorterBlockOverfills | server/WebSocketServer.js:658-674 | for every block shorter than the window, a run with one failure too many |
| AuthRateLimit.WithoutBlockNoBound | server/WebSocketServer.js:658-674 | with no block any number of failures is recorded at one moment |
| AuthRateLimit.DefaultIsBounded | server/WebSocketServer.js:57-61 | with the default limits at most 24 failures from an address are recorded in a minute without a success |
| AuthRateLimit.Limiter.CheckRateLimit | server/WebSocketServer.js:626-652 | throws exactly while blocked, and resets a window that is over in place |
| AuthRateLimit.Limiter.RecordFailedAuth | server/WebSocketServer.js:658-674 | counts, and blocks at the maximum |
| AuthRateLimit.Limiter.RecordSuccessfulAuth | server/WebSocketServer.js:691-694 | forgets the address |
| AuthRateLimit.Limiter.Authenticate | server/WebSocketServer.js:701-790 | one message is one step of its address's run and touches no other address |
| AuthRateLimit.Limiter.CleanUp | server/WebSocketServer.js:98-105 | forgets exactly the addresses whose window is over |
| PolicyEngine.Engine.Evaluate | client/PolicyEngine.js:45-68 | approved exactly if every rule approves; the failing and throwing rules are listed exactly and in order; every rule advances |
| PolicyEngine.ListedExactly | client/PolicyEngine.js:45-68 | a rule is listed once, in order, exactly if it rejects or throws, and with which it did |
| PolicyEngine.JudgeMaxAmount | client/PolicyEngine.js:86-101 | rejects exactly if some transfer exceeds the limit in either direction |
| PolicyEngine.JudgeAllowedRecipients | client/PolicyEngine.js:116-133 | rejects exactly if some positive amount goes to an account not listed |
| PolicyEngine.ApprovedIffNoFailure | client/PolicyEngine.js:62-67 | an empty list of failures is approval by all |
| PolicyEngine.OrderDoesNotMatter | client/PolicyEngine.js:45-68 | the decision is the same for any two lists with the same rules |
| PolicyEngine.AtMostMaxPerHour | client/PolicyEngine.js:206-223 | with a rate limit anywhere, every half-open hour holds at most its number of approvals by the engine, none if that is negative |
| PolicyEngine.RecentExactly | client/PolicyEngine.js:206-213 | what is kept are the approvals less than 3600000 ms old, each as often as it was made |
| PolicyEngine.TimeWindowExactly | client/PolicyEngine.js:177-183 | approved exactly in the UTC hours from the start up to the end, through midnight if it wraps |
| PolicyEngine.PruningRefinesFullLog | client/PolicyEngine.js:206-223 | the pruned list approves at exactly the times a limit that remembers everything would |
| PolicyEngine.CreateTreasuryAgentPolicy | client/PolicyEngine.js:234-254 | the rules the preset holds, in order |
| PolicyEngine.RateLimitAfterRun | client/PolicyEngine.js:206-223 | after any run a rate limit has kept, of the last hour, exactly its own approvals |
| PolicyEngine.TreasuryApprovesExactly | client/PolicyEngine.js:234-254 | after any run of requests, approval by the preset if and only if type, amounts and recipients are within what was configured and its rate limit, where given, has approved fewer than that in the last hour |
| TokenGeneration.Sample | keyManagement/EncryptedFileProvider.js:398-415 | the chunked loop gives the first accepted bytes mapped through the alphabet and draws not a byte more than up to the last of them |
| TokenGeneration.TokenByPosition | keyManagement/EncryptedFileProvider.js:398-415 | the i-th character is the alphabet at the i-th accepted byte modulo its size, every other byte drawn is at or above the largest multiple of the size, and the last byte drawn is the last used |
| TokenGeneration.GeneratePin | server/SigningSessionManager.js:1078-1096 | the same for the PIN |
| TokenGeneration.GeneratePassphrase | keyManagement/EncryptedFileProvider.js:398-415 | the same for the passphrase |
| TokenGeneration.TokenLength | server/SigningSessionManager.js:1078-1096 | the token has the length asked for |
| TokenGeneration.EveryCharacterEquallyLikely | server/SigningSessionManager.js:1078-1096 | every character is the image of exactly 256 div n accepted byte values |
| TokenGeneration.CharactersEquallyLikely | server/SigningSessionManager.js:1078-1096 | in an alphabet without repeats every character is what exactly 256 div n accepted byte values become |
| TokenGeneration.AlphabetsHaveNoRepeats | server/SigningSessionManager.js:1079-1079 | neither alphabet repeats a character |

## Left out

- WebSocketServer.Server.HandleSignatureSubmit: the wait for the lock is not inside it; it is the section as it runs once the lock is its own, and `LockedSession` supplies the waiting.
- WebSocketServer.Server.BeginExecution: likewise; and the event handlers an embedding program may register are not called.
- WebSocketServer.Server.FinishExecution: receipts and mirror-node confirmation are reduced to an answer that is accepted or not.
- SigningSessionManager.Manager.AssembleTransaction: the SDK's own body list is taken to be the extracted bodies, and a transaction injected through the manager is rebuilt from its bytes rather than taken from the object kept beside them.
- SigningSessionManager.Manager.CreateSession: finding the eligible keys inside a transaction is left out; the keys are those found or given.
- WebSocketServer.Server.BroadcastToSession: a message carries its kind, the participant and status it is about, and for TRANSACTION_RECEIVED the transaction; other payload data and the coordinator's copy are left out, and sending to an open socket does not fail.
- WebSocketServer.Server.HandleTransactionInject: a transaction that does not normalise changes nothing and is not a step; what decoding its details yields is the parameter `life`.
- WebSocketServer.Server.HandleScheduleAnnounce: the announced data is copied only and is left out.
- WebSocketServer.Server.Join: PIN, tokens and API keys are taken as checked before, and labels and the agent flag are left out.
- WebSocketServer.Server.Reconnect: a reconnection is a participant that kept its id; the token is left out.
- SessionStore.Store.CleanUpExpiredSessions: the SESSION_EXPIRED messages and the closing of sockets are left out; what a close then does is `HandleClose`.
- TimerController.Controller.SetTimeout: delays are left out; the host may fire an armed timer at any time, so the timer theorems hold for every delay.
- Base64.DecodeEncode: the decoder reads what the encoder writes; Node's leniency towards the URL alphabet and stray characters is left out.
- KeyUtils.CanonicalOfSpelling: lower-casing is of ASCII letters only.
- PolicyEngine.TreasuryApprovesExactly: amounts are reals, without floating-point rounding.
- Handlers as atomic steps: an assumption. A handler awaits the in-memory store, and the WebSocket library may deliver several messages in one tick, so two handlers could interleave at those awaits; so could the check and the record of an authentication attempt. Only the network wait of an execution is modelled as a point where others run.
- WebSocketServer.Server.Perform: the manager's own injection, cancellation and the store's sweep are not among its events; their contracts speak of one session and of the store.
- The counters participantsReady and agentsConnected: the first is carried but nothing is claimed of it, since a status update changes readiness without it; the second is left out.
- Times of receipt are taken to be non-zero, as a clock gives them.
- Cryptography, sockets, TLS, tunnels, heartbeats, HTTP endpoints, the Redis and file stores, workflows, the command line's menus and displays, and the reconnecting clients: libraries and plumbing.
- The reset of the timer registry, the per-session authentication counter, the other policy preset, key validation and the metadata sanitiser: single branches with no state to speak of.
- `rejoinParticipant`: no handler calls it.
