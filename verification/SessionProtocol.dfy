/** The signing session as a state machine: one value for everything a session's handlers read and
    write, and one transition function per handler of server/SessionStore.js,
    server/SigningSessionManager.js and server/WebSocketServer.js. Each handler is taken as one atomic
    step; execution alone is split at its network wait into a beginning and an end, between which any
    other step may run. */
module SessionProtocol {
  import opened Wrappers
  import opened Base64
  import opened SignatureVerifier
  import opened KeyUtils

  type ParticipantId = string

  datatype Status =
    | Waiting | TransactionReceived | Signing | Executing | Completed | ExecutionFailed
    | TransactionExpired | Expired | Cancelled | Active

  // ---- shared/protocol.js

  /** The states the documentation allows next. */
  function DocumentedNext(s: Status): set<Status> {
    match s
    case Waiting => {TransactionReceived, Expired, Cancelled}
    case TransactionReceived => {Signing, TransactionExpired, Expired, Cancelled}
    case Signing => {Executing, TransactionExpired, Expired, Cancelled}
    case Executing => {Completed, ExecutionFailed}
    case TransactionExpired => {Waiting, Expired, Cancelled}
    case _ => {}
  }

  predicate IsValidTransition(from: Status, to: Status) {
    to in DocumentedNext(from)
  }

  /** `updateStatus`: an undocumented transition is only warned about, but the legacy status
      'active' is written as 'signing'. */
  function WrittenStatus(from: Status, to: Status): Status {
    if !IsValidTransition(from, to) && to == Active then Signing else to
  }

  /** Whatever the transition, every status is written as it is but the legacy one. */
  lemma WrittenAsGiven(from: Status, to: Status)
    ensures WrittenStatus(from, to) == if to == Active then Signing else to
  {
  }

  // ---- The session record

  datatype FrozenTx = FrozenTx(bytes: Bytes)

  datatype SignatureEntry = SignatureEntry(
    publicKey: string, signatures: seq<string>, signature: string, participantId: ParticipantId, timestamp: int)

  datatype Participant = Participant(
    status: string, keysLoaded: bool, publicKey: Option<string>, previousStatus: Option<string>)

  datatype Stats = Stats(participantsConnected: int, participantsReady: nat, signaturesCollected: nat)

  /** What a session is created with and never changes. */
  datatype Terms = Terms(threshold: int, eligiblePublicKeys: seq<string>, expiresAt: Option<int>)

  datatype Record = Record(
    terms: Terms,
    status: Status,
    frozenTransaction: Option<FrozenTx>,
    scheduled: bool,
    transactionReceivedAt: Option<int>,
    expirationTimerId: Option<nat>,
    participants: map<ParticipantId, Participant>,
    signatures: map<string, SignatureEntry>,
    stats: Stats)

  /** One network submission: which injection it is of, the bodies sent, and the signature bytes
      attached per key. */
  datatype Submission = Submission(epoch: nat, bodies: seq<Bytes>, attached: map<string, seq<Bytes>>, at: int)

  /** The history of a session that the theorems speak of: every transaction it was given, in order
      (an epoch is an index into `injected`), when the latest one was injected (`None` if the session
      was created with it), every network submission, and the participants that were sent
      TRANSACTION_RECEIVED for the latest transaction. */
  datatype History = History(
    injected: seq<FrozenTx>, injectedAt: Option<int>, submissions: seq<Submission>, delivered: set<ParticipantId>)

  /** A session with the part of its surroundings its handlers touch: whether an execution holds the
      per-session lock, the sockets by participant (true while open), and the pending expiry timers
      with the epoch that armed them. */
  datatype Session = Session(
    record: Record,
    executing: bool,
    sockets: map<ParticipantId, bool>,
    timers: map<nat, nat>,
    nextTimerId: nat,
    history: History)

  function Epochs(w: Session): nat {
    |w.history.injected|
  }

  /** The epoch of the latest transaction. */
  function Latest(w: Session): nat {
    if Epochs(w) == 0 then 0 else Epochs(w) - 1
  }

  // ---- server/SessionStore.js

  predicate PastExpiry(r: Record, now: int) {
    r.terms.expiresAt.Some? && r.terms.expiresAt.value < now
  }

  /** `getSession`: reading a session past its `expiresAt` marks it expired, whatever it was. */
  function Read(r: Record, now: int): Record {
    if PastExpiry(r, now) then r.(status := Expired) else r
  }

  lemma ReadChangesStatusOnly(r: Record, now: int)
    ensures Read(r, now) == r.(status := Read(r, now).status)
  {
  }

  function UpdateStatus(r: Record, status: Status): Record {
    r.(status := WrittenStatus(r.status, status))
  }

  /** A signed or rejected participant goes back to ready, or to connected without keys. */
  function ResetParticipant(p: Participant): Participant {
    if p.status == "signed" || p.status == "rejected" then
      p.(publicKey := None, status := if p.keysLoaded then "ready" else "connected")
    else p
  }

  function ClearTransactionState(r: Record): Record {
    r.(signatures := map[],
       stats := r.stats.(signaturesCollected := 0),
       participants := map id | id in r.participants :: ResetParticipant(r.participants[id]))
  }

  function AddParticipant(r: Record, id: ParticipantId): Record {
    r.(participants := r.participants[id := Participant("connected", false, None, None)],
       stats := r.stats.(participantsConnected := r.stats.participantsConnected + 1))
  }

  function RemoveParticipant(r: Record, id: ParticipantId): Record {
    if id !in r.participants then r else
    var p := r.participants[id];
    var wasReady := (p.status == "ready" || p.status == "signed") && r.stats.participantsReady > 0;
    var stats := if wasReady then r.stats.(participantsReady := r.stats.participantsReady - 1) else r.stats;
    if p.status == "signed" || p.status == "rejected" then
      r.(stats := stats,
         participants := r.participants[id := p.(previousStatus := Some(p.status), status := "disconnected")])
    else
      r.(stats := stats.(participantsConnected := stats.participantsConnected - 1),
         participants := r.participants - {id})
  }

  function UpdateParticipantStatus(r: Record, id: ParticipantId, status: string): Record {
    if id !in r.participants then r
    else r.(participants := r.participants[id := r.participants[id].(status := status)])
  }

  function SetParticipantReady(r: Record, id: ParticipantId, publicKey: Option<string>): Record
    requires id in r.participants
  {
    var p := r.participants[id];
    var ready := p.(keysLoaded := true, status := "ready",
                    publicKey := if publicKey.Some? && publicKey.value != "" then publicKey else p.publicKey);
    r.(stats := if p.status != "ready" then r.stats.(participantsReady := r.stats.participantsReady + 1) else r.stats,
       participants := r.participants[id := ready])
  }

  /** `addSignature`, for a participant that is known and a tuple that has signatures. */
  function AddSignature(r: Record, id: ParticipantId, key: string, sigs: seq<string>, now: int): Record
    requires id in r.participants && sigs != []
  {
    var signatures := r.signatures[key := SignatureEntry(key, sigs, sigs[0], id, now)];
    r.(signatures := signatures,
       participants := r.participants[id := r.participants[id].(publicKey := Some(key), status := "signed")],
       stats := r.stats.(signaturesCollected := |signatures|))
  }

  predicate IsThresholdMet(r: Record) {
    |r.signatures| >= r.terms.threshold
  }

  /** `_cleanupExpiredSessions` on one session it does not delete: a completed session is left alone. */
  function Cleanup(r: Record, now: int): Record {
    if PastExpiry(r, now) && r.status != Completed then r.(status := Expired) else r
  }

  // ---- server/SigningSessionManager.js

  datatype Rejection =
    | SessionNotAccepting | InvalidFormat | NoTransaction | WindowExpired | NotEligible | AlreadySigned
    | InvalidSignature | UnknownParticipant

  datatype SubmitOutcome = Accepted(thresholdMet: bool) | Rejected(reason: Rejection)

  const VALIDITY_WINDOW_MS: int := 120000

  /** The checks of a submitted tuple against the session, in the order the manager makes them. */
  function CheckTuple(sdk: Sdk, r: Record, t: SignatureTuple, now: int): (reason: Option<Rejection>) {
    if t.publicKey == "" || SignatureList(t).None? then Some(InvalidFormat)
    else if r.frozenTransaction.None? then Some(NoTransaction)
    else if !r.scheduled && r.transactionReceivedAt.Some? && now - r.transactionReceivedAt.value > VALIDITY_WINDOW_MS then
      Some(WindowExpired)
    else if !IsKeyEligible(t.publicKey, r.terms.eligiblePublicKeys) then Some(NotEligible)
    else if t.publicKey in r.signatures then Some(AlreadySigned)
    else if !TupleVerifies(sdk, r.frozenTransaction.value.bytes, t) then Some(InvalidSignature)
    else None
  }

  /** All the checks of a submission, on the record as read. */
  function CheckSubmission(sdk: Sdk, r: Record, id: ParticipantId, t: SignatureTuple, now: int): (reason: Option<Rejection>) {
    if r.status !in {TransactionReceived, Signing, Active} then Some(SessionNotAccepting)
    else if CheckTuple(sdk, r, t, now).Some? then CheckTuple(sdk, r, t, now)
    else if id !in r.participants then Some(UnknownParticipant)
    else None
  }

  lemma CheckTupleIgnoresStatus(sdk: Sdk, r: Record, status: Status, t: SignatureTuple, now: int)
    ensures CheckTuple(sdk, r.(status := status), t, now) == CheckTuple(sdk, r, t, now)
  {
    hide IsKeyEligible, TupleVerifies, SignatureList;
  }

  /** The first submission moves the session to 'signing', even one that is then rejected. */
  function StartSigning(r: Record): Record {
    if r.status == TransactionReceived && r.signatures == map[] then UpdateStatus(r, Signing) else r
  }

  function SubmitResult(sdk: Sdk, r: Record, id: ParticipantId, t: SignatureTuple, now: int): SubmitOutcome {
    var r0 := Read(r, now);
    match CheckSubmission(sdk, r0, id, t, now)
    case Some(reason) => Rejected(reason)
    case None => Accepted(IsThresholdMet(AddSignature(r0, id, t.publicKey, SignatureList(t).value, now)))
  }

  function SubmitSignature(sdk: Sdk, r: Record, id: ParticipantId, t: SignatureTuple, now: int): Record {
    var r0 := Read(r, now);
    if r0.status !in {TransactionReceived, Signing, Active} then r0 else
    var r1 := StartSigning(r0);
    if CheckSubmission(sdk, r0, id, t, now).Some? then r1
    else AddSignature(r1, id, t.publicKey, SignatureList(t).value, now)
  }

  /** Every stored entry has a signature. */
  predicate ListsNotEmpty(signatures: map<string, SignatureEntry>) {
    forall key :: key in signatures ==> signatures[key].signatures != []
  }

  /** Some signer sent fewer signatures than there are bodies. */
  predicate Downgrades(bodies: seq<Bytes>, signatures: map<string, SignatureEntry>) {
    |bodies| > 1 && exists key :: key in signatures && |signatures[key].signatures| < |bodies|
  }

  function AttachedList(downgrade: bool, sigs: seq<string>): (r: seq<Bytes>)
    ensures downgrade && sigs != [] ==> r == [DecodeSignature(sigs[0])]
    ensures !downgrade ==> |r| == |sigs| && forall i :: 0 <= i < |sigs| ==> r[i] == DecodeSignature(sigs[i])
  {
    if downgrade && sigs != [] then [DecodeSignature(sigs[0])]
    else seq(|sigs|, i requires 0 <= i < |sigs| => DecodeSignature(sigs[i]))
  }

  /** Build what is sent to the network, or `None` where reconstructing the transaction, parsing a
      key or attaching a list throws. */
  function Assemble(sdk: Sdk, r: Record, epoch: nat, now: int): Option<Submission> {
    if r.frozenTransaction.None? then None else
    match sdk.bodies(r.frozenTransaction.value.bytes)
    case None => None
    case Some(bodies) =>
      var downgrade := Downgrades(bodies, r.signatures);
      var sent := if downgrade then bodies[..1] else bodies;
      var attached := map key | key in r.signatures :: AttachedList(downgrade, r.signatures[key].signatures);
      if forall key :: key in attached ==> sdk.parsesKey(key) && sdk.attaches(key, sent, attached[key])
      then Some(Submission(epoch, sent, attached, now)) else None
  }

  /** The error path of an execution: only a session still marked executing becomes failed. */
  function ExecutionError(r: Record, now: int): Record {
    var r0 := Read(r, now);
    if r0.status == Executing then UpdateStatus(r0, ExecutionFailed) else r0
  }

  predicate RefusesExecution(s: Status) {
    s in {Completed, ExecutionFailed, Cancelled, Expired, TransactionExpired}
  }

  /** Mark the session executing and send the assembled transaction, unless assembling it throws. */
  function SendTransaction(sdk: Sdk, w: Session, now: int): Session {
    var r := UpdateStatus(w.record, Executing);
    match Assemble(sdk, r, Latest(w), now)
    case None => w.(record := ExecutionError(r, now))
    case Some(sub) =>
      w.(record := r, executing := true, history := w.history.(submissions := w.history.submissions + [sub]))
  }

  /** The checks and the assembly up to the network wait. */
  function BeginExecution(sdk: Sdk, w: Session, now: int): Session {
    var r := Read(w.record, now);
    if RefusesExecution(r.status) || !IsThresholdMet(r) then w.(record := ExecutionError(r, now))
    else SendTransaction(sdk, w.(record := r), now)
  }

  /** Beginning an execution neither reads nor changes the sockets and the timers. */
  lemma BeginIgnoresSurroundings(sdk: Sdk, w: Session, now: int)
    ensures BeginExecution(sdk, w, now) ==
            BeginExecution(sdk, w.(sockets := map[], timers := map[]), now).(sockets := w.sockets, timers := w.timers)
  {
    hide Assemble, ExecutionError, Read, UpdateStatus, RefusesExecution;
  }

  function FinishExecution(w: Session, ok: bool, now: int): Session {
    w.(executing := false,
       record := if ok then UpdateStatus(w.record, Completed) else ExecutionError(w.record, now))
  }

  function NewTransaction(w: Session, tx: FrozenTx, now: int): History {
    w.history.(injected := w.history.injected + [tx], injectedAt := Some(now), delivered := {})
  }

  /** `injectTransaction` of the manager: only into a waiting session, with no message sent. */
  function InjectDirectly(w: Session, tx: FrozenTx, now: int): Session {
    var r := Read(w.record, now);
    if r.status != Waiting then w.(record := r) else
    w.(record := r.(frozenTransaction := Some(tx), status := TransactionReceived, transactionReceivedAt := Some(now)),
       history := NewTransaction(w, tx, now))
  }

  // ---- server/WebSocketServer.js

  function ReadSession(w: Session, now: int): Session {
    w.(record := Read(w.record, now))
  }

  lemma ReadSessionTwice(w: Session, now: int)
    ensures ReadSession(ReadSession(w, now), now) == ReadSession(w, now)
  {
  }

  predicate SocketOpen(w: Session, id: ParticipantId) {
    id in w.sockets && w.sockets[id]
  }

  /** Broadcasting TRANSACTION_RECEIVED: it reaches every participant with an open socket. */
  function DeliverToAll(w: Session): Session {
    w.(history := w.history.(delivered :=
         w.history.delivered + set id | id in w.record.participants && SocketOpen(w, id)))
  }

  function ExpireRecord(r: Record): Record {
    r.(frozenTransaction := None, signatures := map[], stats := r.stats.(signaturesCollected := 0), status := Waiting)
  }

  /** `_handleTransactionExpired` */
  function ExpireTransaction(w: Session, now: int): Session {
    var r := Read(w.record, now);
    if r.status == Completed || r.status == TransactionExpired then w.(record := r)
    else w.(record := ExpireRecord(r))
  }

  /** Disarming a timer that is not pending does nothing. */
  function Disarm(w: Session): Session {
    if w.record.expirationTimerId.Some? then w.(timers := w.timers - {w.record.expirationTimerId.value}) else w
  }

  /** What the decoded details say about the transaction's own lifetime, in seconds; a missing or
      zero duration counts as 120. */
  datatype Lifetime = Unknown | Known(validStart: nat, duration: nat)

  function ExpiresAtSeconds(life: Lifetime): int
    requires life.Known?
  {
    life.validStart + if life.duration == 0 then 120 else life.duration
  }

  /** The delay of the expiry timer in milliseconds. */
  function TimeUntilExpiry(life: Lifetime, now: int): int
    requires life.Known?
  {
    (ExpiresAtSeconds(life) - now / 1000) * 1000
  }

  /** The transaction's lifetime is known and not over. */
  predicate KnownAndAhead(life: Lifetime, now: int) {
    life.Known? && life.validStart != 0 && TimeUntilExpiry(life, now) > 0
  }

  /** The transaction's lifetime is known and over. */
  predicate KnownAndOver(life: Lifetime, now: int) {
    life.Known? && life.validStart != 0 && TimeUntilExpiry(life, now) <= 0
  }

  /** The first half of `_handleTransactionInject`: what the previous transaction left is cleared, its
      timer disarmed, and the new transaction stored. */
  function ReplaceTransaction(w: Session, tx: FrozenTx, now: int): Session {
    var w0 := Disarm(w.(record := ClearTransactionState(Read(w.record, now))));
    w0.(record := w0.record.(frozenTransaction := Some(tx), status := TransactionReceived, transactionReceivedAt := Some(now)),
        history := NewTransaction(w0, tx, now))
  }

  lemma ReplaceKeepsTimerBound(w: Session, tx: FrozenTx, now: int)
    ensures ReplaceTransaction(w, tx, now).nextTimerId == w.nextTimerId
  {
  }

  lemma ReplacedIsInFlight(w: Session, tx: FrozenTx, now: int)
    ensures Read(ReplaceTransaction(w, tx, now).record, now).status in {TransactionReceived, Expired}
  {
  }

  lemma NothingDeliveredYet(w: Session, tx: FrozenTx, timerId: Option<nat>, now: int)
    ensures var w1 := ReplaceTransaction(w, tx, now);
            && w1.history.delivered == {}
            && ArmTimer(w1, timerId).history.delivered == {}
            && ExpireTransaction(w1, now).history.delivered == {}
  {
  }

  /** `_handleTransactionInject`: a transaction past its own lifetime is expired at once, any other
      gets an expiry timer if its lifetime is known, and is broadcast. `timerId` is what the timer
      controller returns if asked: `None` while shutting down. */
  function InjectTransaction(w: Session, tx: FrozenTx, life: Lifetime, timerId: Option<nat>, now: int): Session {
    var w1 := ReplaceTransaction(w, tx, now);
    if life.Known? && life.validStart != 0 && TimeUntilExpiry(life, now) <= 0 then ExpireTransaction(w1, now) else
    var w2 := if life.Known? && life.validStart != 0 then ArmTimer(w1, timerId) else w1;
    DeliverToAll(ReadSession(w2, now))
  }

  function ArmTimer(w: Session, timerId: Option<nat>): Session {
    var armed := w.(record := w.record.(expirationTimerId := timerId));
    if timerId.None? then armed
    else armed.(timers := w.timers[timerId.value := Latest(w)], nextTimerId := timerId.value + 1)
  }

  /** `_handleResetTransaction` */
  function ResetTransaction(w: Session, now: int): Session {
    var r := Read(w.record, now);
    if r.status !in {TransactionReceived, Signing, TransactionExpired, Waiting} then w.(record := r)
    else
      var cleared := r.(frozenTransaction := None, signatures := map[], stats := r.stats.(signaturesCollected := 0));
      ReadSession(w.(record := if r.status == Waiting then cleared else UpdateStatus(cleared, Waiting)), now)
  }

  /** `_handleTransactionRejected`: accepted from any participant in any state. */
  function RejectTransaction(w: Session, id: ParticipantId, now: int): Session {
    var r := ClearTransactionState(Read(UpdateParticipantStatus(w.record, id, "rejected"), now));
    var w0 := Disarm(w.(record := r));
    ReadSession(
      w0.(record := r.(frozenTransaction := None, transactionReceivedAt := None, expirationTimerId := None, status := Waiting)),
      now)
  }

  predicate InFlight(r: Record) {
    (r.status == TransactionReceived || r.status == Signing) && r.frozenTransaction.Some?
  }

  /** The late-joiner catch-up: the transaction in flight is sent to the one participant. */
  function CatchUp(w: Session, id: ParticipantId): Session {
    if InFlight(w.record) && SocketOpen(w, id)
    then w.(history := w.history.(delivered := w.history.delivered + {id})) else w
  }

  /** `_handleParticipantReady` */
  function ParticipantReady(w: Session, id: ParticipantId, publicKey: Option<string>, now: int): Session {
    if id !in w.record.participants then w else
    CatchUp(ReadSession(w.(record := SetParticipantReady(w.record, id, publicKey)), now), id)
  }

  /** The close handler of a participant's socket. */
  function CloseSocket(w: Session, id: ParticipantId, now: int): Session {
    ReadSession(w.(sockets := w.sockets - {id}, record := RemoveParticipant(w.record, id)), now)
  }

  // ---- Steps

  datatype Event =
    | ReadEvent
    | CleanupEvent
    | Join(id: ParticipantId)
    | Reconnect(id: ParticipantId)
    | SocketStopsBeingOpen(id: ParticipantId)
    | Close(id: ParticipantId)
    | Ready(id: ParticipantId, publicKey: Option<string>)
    | StatusUpdate(id: ParticipantId, status: string)
    | Submit(id: ParticipantId, tuple: SignatureTuple)
    | Inject(tx: FrozenTx, life: Lifetime, timerId: Option<nat>)
    | InjectByManager(tx: FrozenTx)
    | AnnounceSchedule
    | Reject(id: ParticipantId)
    | Reset
    | ExpiryTimerFires(timer: nat)
    | Cancel
    | Begin
    | Finish(ok: bool)

  /** Which steps can be taken: the lock keeps submissions and executions out while one executes, a
      timer fires only while pending, and new timer and participant ids are fresh. */
  predicate Enabled(w: Session, e: Event) {
    match e
    case Submit(_, _) => !w.executing
    case Begin => !w.executing
    case Finish(_) => w.executing
    case ExpiryTimerFires(id) => id in w.timers
    case Inject(_, _, timerId) => timerId.Some? ==> timerId.value >= w.nextTimerId
    case Join(id) => id !in w.record.participants
    case _ => true
  }

  function Step(sdk: Sdk, w: Session, e: Event, now: int): Session {
    match e
    case ReadEvent => ReadSession(w, now)
    case CleanupEvent => w.(record := Cleanup(w.record, now))
    case Join(id) =>
      ReadSession(w.(record := AddParticipant(Read(w.record, now), id), sockets := w.sockets[id := true]), now)
    case Reconnect(id) => ReadSession(w.(sockets := w.sockets[id := true]), now)
    case SocketStopsBeingOpen(id) => if id in w.sockets then w.(sockets := w.sockets[id := false]) else w
    case Close(id) => CloseSocket(w, id, now)
    case Ready(id, publicKey) => ParticipantReady(w, id, publicKey, now)
    case StatusUpdate(id, status) => ReadSession(w.(record := UpdateParticipantStatus(w.record, id, status)), now)
    case Submit(id, tuple) => w.(record := SubmitSignature(sdk, w.record, id, tuple, now))
    case Inject(tx, life, timerId) => InjectTransaction(w, tx, life, timerId, now)
    case InjectByManager(tx) => InjectDirectly(w, tx, now)
    case AnnounceSchedule => ReadSession(w.(record := Read(w.record, now).(scheduled := true)), now)
    case Reject(id) => RejectTransaction(w, id, now)
    case Reset => ResetTransaction(w, now)
    case ExpiryTimerFires(id) => ExpireTransaction(w.(timers := w.timers - {id}), now)
    case Cancel => w.(record := UpdateStatus(w.record, Cancelled))
    case Begin => BeginExecution(sdk, w, now)
    case Finish(ok) => FinishExecution(w, ok, now)
  }

  /** A session as created, without a transaction or with one. */
  function Created(terms: Terms, tx: Option<FrozenTx>, scheduled: bool, nextTimerId: nat): Session {
    Session(
      Record(terms, if tx.Some? then TransactionReceived else Waiting, tx, scheduled,
             None, None, map[], map[], Stats(0, 0, 0)),
      false, map[], map[], nextTimerId,
      History(if tx.Some? then [tx.value] else [], None, [], {}))
  }
}
