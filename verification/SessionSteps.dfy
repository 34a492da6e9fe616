/** What every step does to every field of a session, told field by field rather than handler by handler:
    which steps touch the field, under which condition, and what it becomes. Nothing here is said through
    the handlers' own functions. */
module SessionSteps {
  import opened Wrappers
  import opened Base64
  import opened SignatureVerifier
  import opened KeyUtils
  import opened SessionProtocol
  import opened SessionInvariant
  import opened SessionRuns
  import opened SignerIdentity

  /** The session is past its own expiry. */
  predicate Past(w: Session, now: int) {
    w.record.terms.expiresAt.Some? && w.record.terms.expiresAt.value < now
  }

  predicate LifeKnown(life: Lifetime) {
    life.Known? && life.validStart != 0
  }

  /** The transaction's lifetime, 120 seconds unless given, is over. */
  predicate LifeOver(life: Lifetime, now: int) {
    LifeKnown(life) && life.validStart + (if life.duration == 0 then 120 else life.duration) <= now / 1000
  }

  /** A manager's injection is taken only by a waiting session. */
  predicate TakesInjection(w: Session, now: int) {
    !Past(w, now) && w.record.status == Waiting
  }

  predicate Resets(w: Session, now: int) {
    !Past(w, now) && w.record.status in {TransactionReceived, Signing, TransactionExpired, Waiting}
  }

  /** An expiry callback leaves a completed session alone, unless it is past its own expiry. */
  predicate TimerExpires(w: Session, now: int) {
    Past(w, now) || w.record.status !in {Completed, TransactionExpired}
  }

  predicate Submits(sdk: Sdk, w: Session, now: int) {
    Step(sdk, w, Begin, now).history.submissions != w.history.submissions
  }

  // ---- The tables

  function StatusAfter(sdk: Sdk, w: Session, e: Event, now: int): Status {
    var s, past := w.record.status, Past(w, now);
    match e
    case SocketStopsBeingOpen(_) => s
    case CleanupEvent => if past && s != Completed then Expired else s
    case Ready(id, _) => if past && id in w.record.participants then Expired else s
    case Submit(_, _) => if past then Expired else if s == TransactionReceived && w.record.signatures == map[] then Signing else s
    case Inject(_, life, _) => if LifeOver(life, now) then Waiting else if past then Expired else TransactionReceived
    case InjectByManager(_) => if past then Expired else if s == Waiting then TransactionReceived else s
    case Reject(_) => if past then Expired else Waiting
    case Reset => if past then Expired else if Resets(w, now) then Waiting else s
    case ExpiryTimerFires(_) => if TimerExpires(w, now) then Waiting else s
    case Cancel => Cancelled
    case Begin =>
      if past then Expired
      else if s in {Completed, ExecutionFailed, Cancelled, Expired, TransactionExpired} then s
      else if Submits(sdk, w, now) then Executing
      else if s == Executing || |w.record.signatures| >= w.record.terms.threshold then ExecutionFailed
      else s
    case Finish(ok) => if ok then Completed else if past then Expired else if s == Executing then ExecutionFailed else s
    case _ => if past then Expired else s
  }

  function TransactionAfter(w: Session, e: Event, now: int): Option<FrozenTx> {
    match e
    case Inject(tx, life, _) => if LifeOver(life, now) then None else Some(tx)
    case InjectByManager(tx) => if TakesInjection(w, now) then Some(tx) else w.record.frozenTransaction
    case Reject(_) => None
    case Reset => if Resets(w, now) then None else w.record.frozenTransaction
    case ExpiryTimerFires(_) => if TimerExpires(w, now) then None else w.record.frozenTransaction
    case _ => w.record.frozenTransaction
  }

  function ReceivedAfter(w: Session, e: Event, now: int): Option<int> {
    match e
    case Inject(_, _, _) => Some(now)
    case InjectByManager(_) => if TakesInjection(w, now) then Some(now) else w.record.transactionReceivedAt
    case Reject(_) => None
    case _ => w.record.transactionReceivedAt
  }

  /** The steps that drop the signatures, and the one that adds one. */
  function SignaturesAfter(sdk: Sdk, w: Session, e: Event, now: int): map<string, SignatureEntry> {
    match e
    case Inject(_, _, _) => map[]
    case Reject(_) => map[]
    case Reset => if Resets(w, now) then map[] else w.record.signatures
    case ExpiryTimerFires(_) => if TimerExpires(w, now) then map[] else w.record.signatures
    case Submit(id, t) =>
      if SubmitResult(sdk, w.record, id, t, now).Accepted? && SignatureList(t).Some? then
        var list := SignatureList(t).value;
        w.record.signatures[t.publicKey := SignatureEntry(t.publicKey, list, list[0], id, now)]
      else w.record.signatures
    case _ => w.record.signatures
  }

  /** Once the transaction is gone, whoever signed or rejected it is ready again, or merely connected
      without keys, and the key that was used is forgotten. */
  function Restored(p: Participant): Participant {
    Participant(if p.keysLoaded then "ready" else "connected", p.keysLoaded, None, p.previousStatus)
  }

  predicate SignedOrRejected(p: Participant) {
    p.status == "signed" || p.status == "rejected"
  }

  function ParticipantAfter(sdk: Sdk, w: Session, e: Event, now: int, id: ParticipantId): Option<Participant> {
    if id !in w.record.participants then
      if e == Join(id) then Some(Participant("connected", false, None, None)) else None
    else
      var p := w.record.participants[id];
      match e
      case Join(who) => if who == id then Some(Participant("connected", false, None, None)) else Some(p)
      case Ready(who, key) =>
        if who == id then Some(Participant("ready", true, if key.Some? && key.value != "" then key else p.publicKey, p.previousStatus))
        else Some(p)
      case StatusUpdate(who, status) =>
        if who == id then Some(Participant(status, p.keysLoaded, p.publicKey, p.previousStatus)) else Some(p)
      case Submit(who, t) =>
        if who == id && SubmitResult(sdk, w.record, who, t, now).Accepted?
        then Some(Participant("signed", p.keysLoaded, Some(t.publicKey), p.previousStatus)) else Some(p)
      case Close(who) =>
        if who != id then Some(p)
        else if SignedOrRejected(p) then Some(Participant("disconnected", p.keysLoaded, p.publicKey, Some(p.status)))
        else None
      case Inject(_, _, _) => Some(if SignedOrRejected(p) then Restored(p) else p)
      case Reject(who) => Some(if who == id || SignedOrRejected(p) then Restored(p) else p)
      case _ => Some(p)
  }

  function ReadyCountAfter(w: Session, e: Event): int {
    var n := w.record.stats.participantsReady;
    match e
    case Ready(id, _) => if id in w.record.participants && w.record.participants[id].status != "ready" then n + 1 else n
    case Close(id) =>
      if id in w.record.participants && w.record.participants[id].status in {"ready", "signed"} && n > 0 then n - 1 else n
    case _ => n
  }

  function TimerIdAfter(w: Session, e: Event, now: int): Option<nat> {
    match e
    case Inject(_, life, timerId) => if LifeKnown(life) && !LifeOver(life, now) then timerId else w.record.expirationTimerId
    case Reject(_) => None
    case _ => w.record.expirationTimerId
  }

  /** An injection replaces the session's timer, a rejection disarms it, and firing uses it up; a reset
      leaves it. */
  function TimersAfter(w: Session, e: Event, now: int): map<nat, nat> {
    var others := if w.record.expirationTimerId.Some? then w.timers - {w.record.expirationTimerId.value} else w.timers;
    match e
    case Inject(_, life, timerId) =>
      if LifeKnown(life) && !LifeOver(life, now) && timerId.Some? then others[timerId.value := |w.history.injected|] else others
    case Reject(_) => others
    case ExpiryTimerFires(id) => w.timers - {id}
    case _ => w.timers
  }

  function SocketsAfter(w: Session, e: Event): map<ParticipantId, bool> {
    match e
    case Join(id) => w.sockets[id := true]
    case Reconnect(id) => w.sockets[id := true]
    case SocketStopsBeingOpen(id) => if id in w.sockets then w.sockets[id := false] else w.sockets
    case Close(id) => w.sockets - {id}
    case _ => w.sockets
  }

  /** Every transaction the session was given, and when the latest came. */
  function InjectedAfter(w: Session, e: Event, now: int): (seq<FrozenTx>, Option<int>) {
    match e
    case Inject(tx, _, _) => (w.history.injected + [tx], Some(now))
    case InjectByManager(tx) =>
      if TakesInjection(w, now) then (w.history.injected + [tx], Some(now)) else (w.history.injected, w.history.injectedAt)
    case _ => (w.history.injected, w.history.injectedAt)
  }

  /** Who has been sent the latest transaction. */
  function DeliveredAfter(w: Session, e: Event, now: int): set<ParticipantId> {
    match e
    case Inject(_, life, _) =>
      if LifeOver(life, now) then {} else set id | id in w.record.participants && id in w.sockets && w.sockets[id]
    case InjectByManager(_) => if TakesInjection(w, now) then {} else w.history.delivered
    case Ready(id, _) =>
      if && id in w.record.participants && id in w.sockets && w.sockets[id]
         && !Past(w, now) && w.record.status in {TransactionReceived, Signing} && w.record.frozenTransaction.Some?
      then w.history.delivered + {id} else w.history.delivered
    case _ => w.history.delivered
  }

  function ExecutingAfter(sdk: Sdk, w: Session, e: Event, now: int): bool {
    match e
    case Begin => w.executing || Submits(sdk, w, now)
    case Finish(_) => false
    case _ => w.executing
  }

  function CollectedAfter(sdk: Sdk, w: Session, e: Event, now: int): nat {
    if e.Inject? || e.Reject? || (e.Reset? && Resets(w, now)) || (e.ExpiryTimerFires? && TimerExpires(w, now)) then 0
    else if e.Submit? && SubmitResult(sdk, w.record, e.id, e.tuple, now).Accepted? then |SignaturesAfter(sdk, w, e, now)|
    else w.record.stats.signaturesCollected
  }

  function ConnectedAfter(w: Session, e: Event): int {
    var n := w.record.stats.participantsConnected;
    match e
    case Join(_) => n + 1
    case Close(id) => if id in w.record.participants && !SignedOrRejected(w.record.participants[id]) then n - 1 else n
    case _ => n
  }

  /** Every field of the session after the step is what the tables say. Submissions are told apart below. */
  predicate AsTabled(sdk: Sdk, w: Session, e: Event, now: int, w': Session) {
    && TransactionAsTabled(sdk, w, e, now, w')
    && PeopleAsTabled(sdk, w, e, now, w')
    && SurroundingsAsTabled(sdk, w, e, now, w')
  }

  predicate TransactionAsTabled(sdk: Sdk, w: Session, e: Event, now: int, w': Session) {
    && w'.record.terms == w.record.terms
    && w'.record.status == StatusAfter(sdk, w, e, now)
    && w'.record.frozenTransaction == TransactionAfter(w, e, now)
    && w'.record.scheduled == (w.record.scheduled || e.AnnounceSchedule?)
    && w'.record.transactionReceivedAt == ReceivedAfter(w, e, now)
    && w'.record.signatures == SignaturesAfter(sdk, w, e, now)
  }

  predicate PeopleAsTabled(sdk: Sdk, w: Session, e: Event, now: int, w': Session) {
    && ParticipantsAsTabled(sdk, w, e, now, w'.record.participants)
    && w'.record.stats.participantsConnected == ConnectedAfter(w, e)
    && w'.record.stats.participantsReady == ReadyCountAfter(w, e)
    && w'.record.stats.signaturesCollected == CollectedAfter(sdk, w, e, now)
    && w'.sockets == SocketsAfter(w, e)
    && w'.history.delivered == DeliveredAfter(w, e, now)
  }

  predicate SurroundingsAsTabled(sdk: Sdk, w: Session, e: Event, now: int, w': Session) {
    && w'.executing == ExecutingAfter(sdk, w, e, now)
    && w'.record.expirationTimerId == TimerIdAfter(w, e, now)
    && w'.timers == TimersAfter(w, e, now)
    && w'.nextTimerId == (if e.Inject? && LifeKnown(e.life) && !LifeOver(e.life, now) && e.timerId.Some? then e.timerId.value + 1
                          else w.nextTimerId)
    && (w'.history.injected, w'.history.injectedAt) == InjectedAfter(w, e, now)
    && (!e.Begin? ==> w'.history.submissions == w.history.submissions)
  }

  predicate ParticipantsAsTabled(sdk: Sdk, w: Session, e: Event, now: int, after: map<ParticipantId, Participant>) {
    && (forall id :: id in after ==> ParticipantAfter(sdk, w, e, now, id) == Some(after[id]))
    && (forall id :: id in w.record.participants && id !in after ==> ParticipantAfter(sdk, w, e, now, id) == None)
    && (e.Join? ==> e.id in after)
  }

  // ---- Handler by handler

  lemma TimeIsUp(life: Lifetime, now: int)
    requires life.Known?
    ensures TimeUntilExpiry(life, now) <= 0 <==> life.validStart + (if life.duration == 0 then 120 else life.duration) <= now / 1000
  {
    var seconds := ExpiresAtSeconds(life) - now / 1000;
    assert TimeUntilExpiry(life, now) == seconds * 1000;
  }

  /** Storing a new transaction over whatever was there. */
  lemma ReplacedByFields(w: Session, tx: FrozenTx, now: int)
    ensures var w1, r := ReplaceTransaction(w, tx, now), w.record;
            && w1.record == r.(status := TransactionReceived, frozenTransaction := Some(tx), transactionReceivedAt := Some(now),
                               signatures := map[], participants := w1.record.participants,
                               stats := r.stats.(signaturesCollected := 0))
            && w1 == w.(record := w1.record, timers := w1.timers,
                        history := w.history.(injected := w.history.injected + [tx], injectedAt := Some(now), delivered := {}))
            && w1.timers == (if r.expirationTimerId.Some? then w.timers - {r.expirationTimerId.value} else w.timers)
            && w1.record.participants.Keys == r.participants.Keys
            && forall id :: id in r.participants ==>
                 w1.record.participants[id] ==
                 if SignedOrRejected(r.participants[id]) then Restored(r.participants[id]) else r.participants[id]
  {
  }

  lemma ExpiredByFields(w: Session, now: int)
    ensures ExpireTransaction(w, now) ==
            if TimerExpires(w, now) then
              w.(record := w.record.(frozenTransaction := None, signatures := map[], status := Waiting,
                                     stats := w.record.stats.(signaturesCollected := 0)))
            else w
  {
  }

  lemma AnnouncedByFields(w1: Session, arms: bool, timerId: Option<nat>, now: int)
    ensures var w2 := if arms then ArmTimer(w1, timerId) else w1;
            DeliverToAll(ReadSession(w2, now)) ==
            w1.(record := w1.record.(status := if Past(w1, now) then Expired else w1.record.status,
                                     expirationTimerId := if arms then timerId else w1.record.expirationTimerId),
                timers := if arms && timerId.Some? then w1.timers[timerId.value := Latest(w1)] else w1.timers,
                nextTimerId := if arms && timerId.Some? then timerId.value + 1 else w1.nextTimerId,
                history := w1.history.(delivered := w1.history.delivered
                  + set id | id in w1.record.participants && id in w1.sockets && w1.sockets[id]))
  {
  }

  /** What an injection makes of the session that has the transaction stored. */
  lemma InjectedByFields(w: Session, tx: FrozenTx, life: Lifetime, timerId: Option<nat>, now: int)
    ensures var w1, w' := ReplaceTransaction(w, tx, now), InjectTransaction(w, tx, life, timerId, now);
            if LifeOver(life, now) then
              w' == w1.(record := w1.record.(frozenTransaction := None, signatures := map[], status := Waiting,
                                             stats := w1.record.stats.(signaturesCollected := 0)))
            else
              var arms := LifeKnown(life);
              w' == w1.(record := w1.record.(status := if Past(w1, now) then Expired else w1.record.status,
                                             expirationTimerId := if arms then timerId else w1.record.expirationTimerId),
                        timers := if arms && timerId.Some? then w1.timers[timerId.value := Latest(w1)] else w1.timers,
                        nextTimerId := if arms && timerId.Some? then timerId.value + 1 else w1.nextTimerId,
                        history := w1.history.(delivered := w1.history.delivered
                          + set id | id in w1.record.participants && id in w1.sockets && w1.sockets[id]))
  {
    if life.Known? { TimeIsUp(life, now); }
    ReplacedByFields(w, tx, now);
    var w1 := ReplaceTransaction(w, tx, now);
    hide ReplaceTransaction, TimeUntilExpiry, ExpireTransaction, DeliverToAll, ReadSession, ArmTimer, Restored, SignedOrRejected;
    ExpiredByFields(w1, now);
    AnnouncedByFields(w1, life.Known? && life.validStart != 0, timerId, now);
  }

  lemma SubmittedByFields(sdk: Sdk, w: Session, id: ParticipantId, t: SignatureTuple, now: int)
    ensures var r := w.record;
            var r1 := r.(status := if Past(w, now) then Expired
                                   else if r.status == TransactionReceived && r.signatures == map[] then Signing else r.status);
            if SubmitResult(sdk, r, id, t, now).Accepted? then
              && SignatureList(t).Some? && id in r.participants && t.publicKey !in r.signatures
              && SubmitSignature(sdk, r, id, t, now) == AddSignature(r1, id, t.publicKey, SignatureList(t).value, now)
            else SubmitSignature(sdk, r, id, t, now) == r1
  {
    hide IsKeyEligible, TupleVerifies, AddSignature;
  }

  lemma BegunByFields(sdk: Sdk, w: Session, now: int)
    ensures var w' := BeginExecution(sdk, w, now);
            && w' == w.(record := w.record.(status := w'.record.status), executing := w'.executing,
                        history := w.history.(submissions := w'.history.submissions))
  {
    hide Assemble;
  }

  lemma ReadiedByFields(w: Session, id: ParticipantId, publicKey: Option<string>, now: int)
    requires id in w.record.participants
    ensures var r, p := w.record, w.record.participants[id];
            var ready := Participant("ready", true, if publicKey.Some? && publicKey.value != "" then publicKey else p.publicKey,
                                     p.previousStatus);
            var sent := && id in w.sockets && w.sockets[id] && !Past(w, now)
                        && r.status in {TransactionReceived, Signing} && r.frozenTransaction.Some?;
            ParticipantReady(w, id, publicKey, now) ==
            w.(record := r.(status := if Past(w, now) then Expired else r.status, participants := r.participants[id := ready],
                            stats := r.stats.(participantsReady := if p.status != "ready" then r.stats.participantsReady + 1
                                                                   else r.stats.participantsReady)),
               history := w.history.(delivered := if sent then w.history.delivered + {id} else w.history.delivered))
  {
  }

  lemma ClosedByFields(r: Record, id: ParticipantId)
    requires id in r.participants
    ensures var p := r.participants[id];
            var ready := if (p.status == "ready" || p.status == "signed") && r.stats.participantsReady > 0
                         then r.stats.participantsReady - 1 else r.stats.participantsReady;
            RemoveParticipant(r, id) ==
            if SignedOrRejected(p) then
              r.(participants := r.participants[id := Participant("disconnected", p.keysLoaded, p.publicKey, Some(p.status))],
                 stats := r.stats.(participantsReady := ready))
            else
              r.(participants := r.participants - {id},
                 stats := r.stats.(participantsReady := ready, participantsConnected := r.stats.participantsConnected - 1))
  {
  }

  lemma ParticipantsUntouched(sdk: Sdk, w: Session, e: Event, now: int)
    requires !e.Join? && !e.Ready? && !e.StatusUpdate? && !e.Submit? && !e.Close? && !e.Inject? && !e.Reject?
    ensures ParticipantsAsTabled(sdk, w, e, now, w.record.participants)
  {
  }

  lemma InjectOnTransaction(sdk: Sdk, w: Session, tx: FrozenTx, life: Lifetime, timerId: Option<nat>, now: int)
    ensures TransactionAsTabled(sdk, w, Inject(tx, life, timerId), now, InjectTransaction(w, tx, life, timerId, now))
  {
    ReplacedByFields(w, tx, now);
    InjectedByFields(w, tx, life, timerId, now);
    hide ReplaceTransaction, InjectTransaction, LifeOver, LifeKnown, Step, Restored, SignedOrRejected;
  }

  lemma InjectOnPeople(sdk: Sdk, w: Session, tx: FrozenTx, life: Lifetime, timerId: Option<nat>, now: int)
    ensures PeopleAsTabled(sdk, w, Inject(tx, life, timerId), now, InjectTransaction(w, tx, life, timerId, now))
  {
    ReplacedByFields(w, tx, now);
    InjectedByFields(w, tx, life, timerId, now);
    hide ReplaceTransaction, InjectTransaction, LifeOver, LifeKnown, Step, Restored, SignedOrRejected;
  }

  lemma InjectOnSurroundings(sdk: Sdk, w: Session, tx: FrozenTx, life: Lifetime, timerId: Option<nat>, now: int)
    ensures SurroundingsAsTabled(sdk, w, Inject(tx, life, timerId), now, InjectTransaction(w, tx, life, timerId, now))
  {
    ReplacedByFields(w, tx, now);
    InjectedByFields(w, tx, life, timerId, now);
    hide ReplaceTransaction, InjectTransaction, LifeOver, LifeKnown, Step, Restored, SignedOrRejected;
  }

  lemma InjectDirectlyOnTransaction(sdk: Sdk, w: Session, tx: FrozenTx, now: int)
    ensures TransactionAsTabled(sdk, w, InjectByManager(tx), now, InjectDirectly(w, tx, now))
  {
    hide Step;
  }

  lemma InjectDirectlyOnPeople(sdk: Sdk, w: Session, tx: FrozenTx, now: int)
    ensures PeopleAsTabled(sdk, w, InjectByManager(tx), now, InjectDirectly(w, tx, now))
  {
    ParticipantsUntouched(sdk, w, InjectByManager(tx), now);
    hide Step, ParticipantsAsTabled;
  }

  lemma InjectDirectlyOnSurroundings(sdk: Sdk, w: Session, tx: FrozenTx, now: int)
    ensures SurroundingsAsTabled(sdk, w, InjectByManager(tx), now, InjectDirectly(w, tx, now))
  {
    hide Step;
  }

  lemma RejectOnTransaction(sdk: Sdk, w: Session, id: ParticipantId, now: int)
    ensures TransactionAsTabled(sdk, w, Reject(id), now, RejectTransaction(w, id, now))
  {
    hide Step;
  }

  lemma RejectOnPeople(sdk: Sdk, w: Session, id: ParticipantId, now: int)
    ensures PeopleAsTabled(sdk, w, Reject(id), now, RejectTransaction(w, id, now))
  {
    hide Step;
  }

  lemma RejectOnSurroundings(sdk: Sdk, w: Session, id: ParticipantId, now: int)
    ensures SurroundingsAsTabled(sdk, w, Reject(id), now, RejectTransaction(w, id, now))
  {
    hide Step;
  }

  lemma ResetOnTransaction(sdk: Sdk, w: Session, now: int)
    ensures TransactionAsTabled(sdk, w, Reset, now, ResetTransaction(w, now))
  {
    hide Step;
  }

  lemma ResetOnPeople(sdk: Sdk, w: Session, now: int)
    ensures PeopleAsTabled(sdk, w, Reset, now, ResetTransaction(w, now))
  {
    ParticipantsUntouched(sdk, w, Reset, now);
    hide Step, ParticipantsAsTabled;
  }

  lemma ResetOnSurroundings(sdk: Sdk, w: Session, now: int)
    ensures SurroundingsAsTabled(sdk, w, Reset, now, ResetTransaction(w, now))
  {
    hide Step;
  }

  lemma ExpireOnTransaction(sdk: Sdk, w: Session, timer: nat, now: int)
    ensures TransactionAsTabled(sdk, w, ExpiryTimerFires(timer), now, ExpireTransaction(w.(timers := w.timers - {timer}), now))
  {
    ExpiredByFields(w.(timers := w.timers - {timer}), now);
    hide Step, ExpireTransaction;
  }

  lemma ExpireOnPeople(sdk: Sdk, w: Session, timer: nat, now: int)
    ensures PeopleAsTabled(sdk, w, ExpiryTimerFires(timer), now, ExpireTransaction(w.(timers := w.timers - {timer}), now))
  {
    ExpiredByFields(w.(timers := w.timers - {timer}), now);
    ParticipantsUntouched(sdk, w, ExpiryTimerFires(timer), now);
    hide Step, ExpireTransaction, ParticipantsAsTabled;
  }

  lemma ExpireOnSurroundings(sdk: Sdk, w: Session, timer: nat, now: int)
    ensures SurroundingsAsTabled(sdk, w, ExpiryTimerFires(timer), now, ExpireTransaction(w.(timers := w.timers - {timer}), now))
  {
    ExpiredByFields(w.(timers := w.timers - {timer}), now);
    hide Step, ExpireTransaction;
  }

  lemma ReadyOnTransaction(sdk: Sdk, w: Session, id: ParticipantId, publicKey: Option<string>, now: int)
    ensures TransactionAsTabled(sdk, w, Ready(id, publicKey), now, ParticipantReady(w, id, publicKey, now))
  {
    if id in w.record.participants {
      ReadiedByFields(w, id, publicKey, now);
    } else {
      assert ParticipantReady(w, id, publicKey, now) == w;
    }
    hide Step, ParticipantReady;
  }

  lemma ReadyOnPeople(sdk: Sdk, w: Session, id: ParticipantId, publicKey: Option<string>, now: int)
    ensures PeopleAsTabled(sdk, w, Ready(id, publicKey), now, ParticipantReady(w, id, publicKey, now))
  {
    if id in w.record.participants {
      ReadiedByFields(w, id, publicKey, now);
    } else {
      assert ParticipantReady(w, id, publicKey, now) == w;
    }
    hide Step, ParticipantReady;
  }

  lemma ReadyOnSurroundings(sdk: Sdk, w: Session, id: ParticipantId, publicKey: Option<string>, now: int)
    ensures SurroundingsAsTabled(sdk, w, Ready(id, publicKey), now, ParticipantReady(w, id, publicKey, now))
  {
    if id in w.record.participants {
      ReadiedByFields(w, id, publicKey, now);
    } else {
      assert ParticipantReady(w, id, publicKey, now) == w;
    }
    hide Step, ParticipantReady;
  }

  lemma CloseOnTransaction(sdk: Sdk, w: Session, id: ParticipantId, now: int)
    ensures TransactionAsTabled(sdk, w, Close(id), now, CloseSocket(w, id, now))
  {
    if id in w.record.participants {
      ClosedByFields(w.record, id);
    } else {
      assert RemoveParticipant(w.record, id) == w.record;
    }
    hide Step, RemoveParticipant, SignedOrRejected;
  }

  lemma CloseOnPeople(sdk: Sdk, w: Session, id: ParticipantId, now: int)
    ensures PeopleAsTabled(sdk, w, Close(id), now, CloseSocket(w, id, now))
  {
    if id in w.record.participants {
      ClosedByFields(w.record, id);
    } else {
      assert RemoveParticipant(w.record, id) == w.record;
    }
    hide Step, RemoveParticipant, SignedOrRejected;
  }

  lemma CloseOnSurroundings(sdk: Sdk, w: Session, id: ParticipantId, now: int)
    ensures SurroundingsAsTabled(sdk, w, Close(id), now, CloseSocket(w, id, now))
  {
    if id in w.record.participants {
      ClosedByFields(w.record, id);
    } else {
      assert RemoveParticipant(w.record, id) == w.record;
    }
    hide Step, RemoveParticipant, SignedOrRejected;
  }

  lemma SubmitOnTransaction(sdk: Sdk, w: Session, id: ParticipantId, t: SignatureTuple, now: int)
    ensures TransactionAsTabled(sdk, w, Submit(id, t), now, w.(record := SubmitSignature(sdk, w.record, id, t, now)))
  {
    SubmittedByFields(sdk, w, id, t, now);
    hide Step, SubmitResult, SubmitSignature, SignatureList;
  }

  lemma SubmitOnPeople(sdk: Sdk, w: Session, id: ParticipantId, t: SignatureTuple, now: int)
    ensures PeopleAsTabled(sdk, w, Submit(id, t), now, w.(record := SubmitSignature(sdk, w.record, id, t, now)))
  {
    SubmittedByFields(sdk, w, id, t, now);
    hide Step, SubmitResult, SubmitSignature, SignatureList;
  }

  lemma SubmitOnSurroundings(sdk: Sdk, w: Session, id: ParticipantId, t: SignatureTuple, now: int)
    ensures SurroundingsAsTabled(sdk, w, Submit(id, t), now, w.(record := SubmitSignature(sdk, w.record, id, t, now)))
  {
    SubmittedByFields(sdk, w, id, t, now);
    hide Step, SubmitResult, SubmitSignature, SignatureList;
  }

  lemma BeginOnTransaction(sdk: Sdk, w: Session, now: int)
    ensures TransactionAsTabled(sdk, w, Begin, now, BeginExecution(sdk, w, now))
  {
    BegunByFields(sdk, w, now);
    assert Step(sdk, w, Begin, now) == BeginExecution(sdk, w, now);
    hide Assemble, Step;
  }

  lemma BeginOnPeople(sdk: Sdk, w: Session, now: int)
    ensures PeopleAsTabled(sdk, w, Begin, now, BeginExecution(sdk, w, now))
  {
    BegunByFields(sdk, w, now);
    assert Step(sdk, w, Begin, now) == BeginExecution(sdk, w, now);
    ParticipantsUntouched(sdk, w, Begin, now);
    hide Assemble, Step, ParticipantsAsTabled, BeginExecution;
  }

  lemma BeginOnSurroundings(sdk: Sdk, w: Session, now: int)
    ensures SurroundingsAsTabled(sdk, w, Begin, now, BeginExecution(sdk, w, now))
  {
    BegunByFields(sdk, w, now);
    assert Step(sdk, w, Begin, now) == BeginExecution(sdk, w, now);
    hide Assemble, Step;
  }

  lemma FinishOnTransaction(sdk: Sdk, w: Session, ok: bool, now: int)
    ensures TransactionAsTabled(sdk, w, Finish(ok), now, FinishExecution(w, ok, now))
  {
    hide Step;
  }

  lemma FinishOnPeople(sdk: Sdk, w: Session, ok: bool, now: int)
    ensures PeopleAsTabled(sdk, w, Finish(ok), now, FinishExecution(w, ok, now))
  {
    ParticipantsUntouched(sdk, w, Finish(ok), now);
    hide Step, ParticipantsAsTabled;
  }

  lemma FinishOnSurroundings(sdk: Sdk, w: Session, ok: bool, now: int)
    ensures SurroundingsAsTabled(sdk, w, Finish(ok), now, FinishExecution(w, ok, now))
  {
    hide Step;
  }

  lemma OtherOnTransaction(sdk: Sdk, w: Session, e: Event, now: int)
    requires e.ReadEvent? || e.CleanupEvent? || e.Reconnect? || e.SocketStopsBeingOpen? || e.AnnounceSchedule? || e.Cancel?
    ensures TransactionAsTabled(sdk, w, e, now, Step(sdk, w, e, now))
  {
    hide InjectTransaction, RejectTransaction;
  }

  lemma OtherOnPeople(sdk: Sdk, w: Session, e: Event, now: int)
    requires e.ReadEvent? || e.CleanupEvent? || e.Reconnect? || e.SocketStopsBeingOpen? || e.AnnounceSchedule? || e.Cancel?
    ensures PeopleAsTabled(sdk, w, e, now, Step(sdk, w, e, now))
  {
    ParticipantsUntouched(sdk, w, e, now);
    hide InjectTransaction, RejectTransaction, ParticipantsAsTabled;
  }

  lemma OtherOnSurroundings(sdk: Sdk, w: Session, e: Event, now: int)
    requires e.ReadEvent? || e.CleanupEvent? || e.Reconnect? || e.SocketStopsBeingOpen? || e.AnnounceSchedule? || e.Cancel?
    ensures SurroundingsAsTabled(sdk, w, e, now, Step(sdk, w, e, now))
  {
    hide InjectTransaction, RejectTransaction;
  }

  lemma ParticipantOnTransaction(sdk: Sdk, w: Session, e: Event, now: int)
    requires e.Join? || e.StatusUpdate?
    ensures TransactionAsTabled(sdk, w, e, now, Step(sdk, w, e, now))
  {
    hide InjectTransaction, RejectTransaction;
  }

  lemma ParticipantOnPeople(sdk: Sdk, w: Session, e: Event, now: int)
    requires e.Join? || e.StatusUpdate?
    ensures PeopleAsTabled(sdk, w, e, now, Step(sdk, w, e, now))
  {
    hide InjectTransaction, RejectTransaction;
  }

  lemma ParticipantOnSurroundings(sdk: Sdk, w: Session, e: Event, now: int)
    requires e.Join? || e.StatusUpdate?
    ensures SurroundingsAsTabled(sdk, w, e, now, Step(sdk, w, e, now))
  {
    hide InjectTransaction, RejectTransaction;
  }

  /** Every step does to every field what the tables say. */
  lemma StepAsTabled(sdk: Sdk, w: Session, e: Event, now: int)
    ensures AsTabled(sdk, w, e, now, Step(sdk, w, e, now))
  {
    hide TransactionAsTabled, PeopleAsTabled, SurroundingsAsTabled;
    hide InjectTransaction, InjectDirectly, RejectTransaction, ResetTransaction, ExpireTransaction, ParticipantReady;
    hide CloseSocket, SubmitSignature, BeginExecution, FinishExecution;
    match e
    case Inject(tx, life, timerId) =>
      InjectOnTransaction(sdk, w, tx, life, timerId, now);
      InjectOnPeople(sdk, w, tx, life, timerId, now);
      InjectOnSurroundings(sdk, w, tx, life, timerId, now);
    case InjectByManager(tx) =>
      InjectDirectlyOnTransaction(sdk, w, tx, now);
      InjectDirectlyOnPeople(sdk, w, tx, now);
      InjectDirectlyOnSurroundings(sdk, w, tx, now);
    case Reject(id) =>
      RejectOnTransaction(sdk, w, id, now);
      RejectOnPeople(sdk, w, id, now);
      RejectOnSurroundings(sdk, w, id, now);
    case Reset =>
      ResetOnTransaction(sdk, w, now);
      ResetOnPeople(sdk, w, now);
      ResetOnSurroundings(sdk, w, now);
    case ExpiryTimerFires(timer) =>
      ExpireOnTransaction(sdk, w, timer, now);
      ExpireOnPeople(sdk, w, timer, now);
      ExpireOnSurroundings(sdk, w, timer, now);
    case Ready(id, publicKey) =>
      ReadyOnTransaction(sdk, w, id, publicKey, now);
      ReadyOnPeople(sdk, w, id, publicKey, now);
      ReadyOnSurroundings(sdk, w, id, publicKey, now);
    case Close(id) =>
      CloseOnTransaction(sdk, w, id, now);
      CloseOnPeople(sdk, w, id, now);
      CloseOnSurroundings(sdk, w, id, now);
    case Submit(id, t) =>
      SubmitOnTransaction(sdk, w, id, t, now);
      SubmitOnPeople(sdk, w, id, t, now);
      SubmitOnSurroundings(sdk, w, id, t, now);
    case Begin =>
      BeginOnTransaction(sdk, w, now);
      BeginOnPeople(sdk, w, now);
      BeginOnSurroundings(sdk, w, now);
    case Finish(ok) =>
      FinishOnTransaction(sdk, w, ok, now);
      FinishOnPeople(sdk, w, ok, now);
      FinishOnSurroundings(sdk, w, ok, now);
    case Join(_) =>
      ParticipantOnTransaction(sdk, w, e, now);
      ParticipantOnPeople(sdk, w, e, now);
      ParticipantOnSurroundings(sdk, w, e, now);
    case StatusUpdate(_, _) =>
      ParticipantOnTransaction(sdk, w, e, now);
      ParticipantOnPeople(sdk, w, e, now);
      ParticipantOnSurroundings(sdk, w, e, now);
    case _ =>
      OtherOnTransaction(sdk, w, e, now);
      OtherOnPeople(sdk, w, e, now);
      OtherOnSurroundings(sdk, w, e, now);
  }

  // ---- The outcome of a submission

  /** The session takes signatures. */
  predicate Open(w: Session, now: int) {
    !Past(w, now) && w.record.status in {TransactionReceived, Signing, Active}
  }

  /** A key, and signatures in either form. */
  predicate WellFormed(t: SignatureTuple) {
    && t.publicKey != ""
    && ((t.signatures.Some? && t.signatures.value != []) || (t.signature.Some? && t.signature.value != ""))
  }

  /** Later than 120 seconds after it was received, in a realtime session. */
  predicate Late(w: Session, now: int) {
    !w.record.scheduled && w.record.transactionReceivedAt.Some? && now > w.record.transactionReceivedAt.value + 120000
  }

  /** Each reason for which a submission is rejected is given exactly when its check fails and every check
      before it passes; without one it is accepted. */
  lemma RejectedExactly(sdk: Sdk, w: Session, id: ParticipantId, t: SignatureTuple, now: int)
    ensures var outcome, r := SubmitResult(sdk, w.record, id, t, now), w.record;
            var formed := Open(w, now) && WellFormed(t);
            var held := formed && r.frozenTransaction.Some?;
            var timely := held && !Late(w, now);
            var eligible := timely && IsKeyEligible(t.publicKey, r.terms.eligiblePublicKeys);
            var first := eligible && t.publicKey !in r.signatures;
            var verified := first && TupleVerifies(sdk, r.frozenTransaction.value.bytes, t);
            && (outcome == Rejected(SessionNotAccepting) <==> !Open(w, now))
            && (outcome == Rejected(InvalidFormat) <==> Open(w, now) && !formed)
            && (outcome == Rejected(NoTransaction) <==> formed && !held)
            && (outcome == Rejected(WindowExpired) <==> held && !timely)
            && (outcome == Rejected(NotEligible) <==> timely && !eligible)
            && (outcome == Rejected(AlreadySigned) <==> eligible && !first)
            && (outcome == Rejected(InvalidSignature) <==> first && !verified)
            && (outcome == Rejected(UnknownParticipant) <==> verified && id !in r.participants)
            && (outcome.Accepted? <==> verified && id in r.participants)
  {
    hide IsKeyEligible, TupleVerifies, AddSignature;
  }

  /** An accepted submission reports the threshold as met exactly if the signatures held after it, its own
      among them, are as many as the session asks for; and what it stored is the list it sent. */
  lemma AcceptedMeansStored(sdk: Sdk, w: Session, id: ParticipantId, t: SignatureTuple, now: int)
    requires SubmitResult(sdk, w.record, id, t, now).Accepted?
    ensures var after := Step(sdk, w, Submit(id, t), now).record;
            && (SubmitResult(sdk, w.record, id, t, now) == Accepted(true) <==> |after.signatures| >= after.terms.threshold)
            && |after.signatures| == |w.record.signatures| + 1
            && t.publicKey in after.signatures
            && after.signatures[t.publicKey].signatures ==
               (if t.signatures.Some? && t.signatures.value != [] then t.signatures.value else [t.signature.value])
  {
    StepAsTabled(sdk, w, Submit(id, t), now);
    RejectedExactly(sdk, w, id, t, now);
    hide IsKeyEligible, TupleVerifies, Step, PeopleAsTabled, SurroundingsAsTabled, CheckTuple;
    var after := SignaturesAfter(sdk, w, Submit(id, t), now);
    assert after.Keys == w.record.signatures.Keys + {t.publicKey};
  }

  // ---- Who puts the session into a state

  /** A status is entered only by the steps that stand for it. */
  lemma StatusIsEnteredBy(sdk: Sdk, w: Session, e: Event, now: int)
    requires Step(sdk, w, e, now).record.status != w.record.status
    ensures match Step(sdk, w, e, now).record.status
            case Completed => e == Finish(true)
            case ExecutionFailed => !Past(w, now) && ((e == Finish(false) && w.record.status == Executing) || (e == Begin && !Submits(sdk, w, now)))
            case Executing => e == Begin && Submits(sdk, w, now)
            case Signing => e.Submit? && w.record.status == TransactionReceived && w.record.signatures == map[]
            case TransactionReceived => e.Inject? || (e.InjectByManager? && w.record.status == Waiting)
            case Waiting => e.Inject? || e.Reject? || e.Reset? || e.ExpiryTimerFires?
            case Expired => Past(w, now)
            case Cancelled => e == Cancel
            case _ => false
  {
    StepAsTabled(sdk, w, e, now);
    hide Step, Submits, PeopleAsTabled, SurroundingsAsTabled;
  }

  /** How an execution ends: with the network's answer, or at once where it passed the checks and sent
      nothing. */
  lemma ExecutionEnds(sdk: Sdk, w: Session, ok: bool, now: int)
    requires !Past(w, now)
    ensures w.record.status == Executing ==>
              Step(sdk, w, Finish(ok), now).record.status == if ok then Completed else ExecutionFailed
    ensures w.record.status !in {Completed, ExecutionFailed, Cancelled, Expired, TransactionExpired}
            && |w.record.signatures| >= w.record.terms.threshold ==>
              Step(sdk, w, Begin, now).record.status ==
              if Step(sdk, w, Begin, now).history.submissions == w.history.submissions then ExecutionFailed else Executing
  {
    StepAsTabled(sdk, w, Finish(ok), now);
    StepAsTabled(sdk, w, Begin, now);
    hide Step, PeopleAsTabled, SurroundingsAsTabled;
  }

  /** The last step of a run that changed the status to what it is now. */
  lemma {:induction false} LastChange(sdk: Sdk, w: Session, run: seq<Timed>) returns (n: nat)
    requires Final(sdk, w, run).record.status != w.record.status
    ensures var s := Final(sdk, w, run).record.status;
            && n < |run|
            && Final(sdk, w, run[..n]).record.status != s
            && Step(sdk, Final(sdk, w, run[..n]), run[n].event, run[n].now).record.status == s
            && forall m :: n < m <= |run| ==> Final(sdk, w, run[..m]).record.status == s
    decreases |run|
  {
    hide Step;
    var before, last := run[..|run| - 1], run[|run| - 1];
    assert run == before + [last];
    RunOneMore(sdk, w, before, last);
    var s := Final(sdk, w, run).record.status;
    assert run[..|run|] == run;
    if Final(sdk, w, before).record.status != s {
      n := |before|;
    } else {
      n := LastChange(sdk, w, before);
      assert before[..n] == run[..n];
      forall m | n < m <= |run| ensures Final(sdk, w, run[..m]).record.status == s {
        if m < |run| {
          assert before[..m] == run[..m];
        }
      }
    }
  }

  /** In every run a completed session has been so ever since the network accepted an execution of it. */
  lemma CompletedSinceAccepted(sdk: Sdk, terms: Terms, tx: Option<FrozenTx>, scheduled: bool, nextTimerId: nat, run: seq<Timed>)
    returns (n: nat)
    requires Final(sdk, Created(terms, tx, scheduled, nextTimerId), run).record.status == Completed
    ensures n < |run| && run[n].event == Finish(true)
    ensures forall m :: n < m <= |run| ==>
              Final(sdk, Created(terms, tx, scheduled, nextTimerId), run[..m]).record.status == Completed
  {
    hide Step, Final;
    var w0 := Created(terms, tx, scheduled, nextTimerId);
    n := LastChange(sdk, w0, run);
    StatusIsEnteredBy(sdk, Final(sdk, w0, run[..n]), run[n].event, run[n].now);
  }

  /** And a failed one since the network refused an execution, or one sent nothing. */
  lemma FailedSinceRefused(sdk: Sdk, terms: Terms, tx: Option<FrozenTx>, scheduled: bool, nextTimerId: nat, run: seq<Timed>)
    returns (n: nat)
    requires Final(sdk, Created(terms, tx, scheduled, nextTimerId), run).record.status == ExecutionFailed
    ensures n < |run| && (run[n].event == Finish(false) || run[n].event == Begin)
    ensures forall m :: n < m <= |run| ==>
              Final(sdk, Created(terms, tx, scheduled, nextTimerId), run[..m]).record.status == ExecutionFailed
  {
    hide Step, Final;
    var w0 := Created(terms, tx, scheduled, nextTimerId);
    n := LastChange(sdk, w0, run);
    StatusIsEnteredBy(sdk, Final(sdk, w0, run[..n]), run[n].event, run[n].now);
  }

  // ---- Submissions

  /** Some signer has fewer signatures than there are bodies, of which there are several. */
  predicate FallsShort(all: seq<Bytes>, signatures: map<string, SignatureEntry>) {
    |all| > 1 && exists key :: key in signatures && |signatures[key].signatures| < |all|
  }

  /** What one signer attaches: the first signature, or all of them, decoded. */
  predicate IsDecoded(list: seq<Bytes>, sigs: seq<string>, firstOnly: bool) {
    if firstOnly then sigs != [] && list == [DecodeSignature(sigs[0])]
    else |list| == |sigs| && forall i :: 0 <= i < |sigs| ==> list[i] == DecodeSignature(sigs[i])
  }

  /** The submission is of these bodies with these signatures: all the bodies, or the first alone if some
      signer falls short; and of every signer all signatures, or the first alone. */
  predicate IsMadeOf(sub: Submission, all: seq<Bytes>, signatures: map<string, SignatureEntry>) {
    var short := FallsShort(all, signatures);
    && sub.bodies == (if short then all[..1] else all)
    && sub.attached.Keys == signatures.Keys
    && forall key :: key in signatures ==> IsDecoded(sub.attached[key], signatures[key].signatures, short)
  }

  lemma AssembledIsMadeOf(sdk: Sdk, r: Record, epoch: nat, now: int)
    requires ListsNotEmpty(r.signatures) && Assemble(sdk, r, epoch, now).Some?
    ensures var sub := Assemble(sdk, r, epoch, now).value;
            && sub.epoch == epoch && sub.at == now
            && r.frozenTransaction.Some? && sdk.bodies(r.frozenTransaction.value.bytes).Some?
            && IsMadeOf(sub, sdk.bodies(r.frozenTransaction.value.bytes).value, r.signatures)
  {
    hide DecodeSignature;
  }

  /** The transaction can be read, and the SDK takes every key with its list. */
  predicate CanBeAssembled(sdk: Sdk, r: Record) {
    && r.frozenTransaction.Some? && sdk.bodies(r.frozenTransaction.value.bytes).Some?
    && var all := sdk.bodies(r.frozenTransaction.value.bytes).value;
       var short := FallsShort(all, r.signatures);
       forall key :: key in r.signatures ==>
         && sdk.parsesKey(key)
         && sdk.attaches(key, if short then all[..1] else all, AttachedList(short, r.signatures[key].signatures))
  }

  lemma AssemblesExactly(sdk: Sdk, r: Record, epoch: nat, now: int)
    ensures Assemble(sdk, r, epoch, now).Some? <==> CanBeAssembled(sdk, r)
  {
    hide AttachedList;
    if r.frozenTransaction.Some? && sdk.bodies(r.frozenTransaction.value.bytes).Some? {
      var all := sdk.bodies(r.frozenTransaction.value.bytes).value;
      assert FallsShort(all, r.signatures) <==> Downgrades(all, r.signatures);
      var attached := map key | key in r.signatures :: AttachedList(Downgrades(all, r.signatures), r.signatures[key].signatures);
      assert attached.Keys == r.signatures.Keys;
    }
  }

  /** An execution submits exactly if the session is in time, not in a state that refuses it, holds enough
      signatures, and the transaction can be assembled. */
  lemma SubmitsExactly(sdk: Sdk, w: Session, now: int)
    ensures Submits(sdk, w, now) <==>
            && !Past(w, now) && w.record.status !in {Completed, ExecutionFailed, Cancelled, Expired, TransactionExpired}
            && |w.record.signatures| >= w.record.terms.threshold
            && CanBeAssembled(sdk, w.record)
  {
    StepIsBegin(sdk, w, now);
    var r := UpdateStatus(Read(w.record, now), Executing);
    AssemblesExactly(sdk, r, Latest(w), now);
    assert CanBeAssembled(sdk, r) <==> CanBeAssembled(sdk, w.record);
    hide CanBeAssembled, Assemble, Step;
    assert forall sub :: w.history.submissions + [sub] != w.history.submissions by { LongerDiffers(w.history.submissions); }
  }

  lemma LongerDiffers(subs: seq<Submission>)
    ensures forall sub :: subs + [sub] != subs
  {
    forall sub ensures subs + [sub] != subs {
      assert |subs + [sub]| == |subs| + 1;
    }
  }

  /** Every submission of every run was made by an execution, of the latest transaction and the signatures
      it found: all the bodies or the first alone, and of every signer all signatures or the first alone,
      by whether some signer fell short. */
  lemma SubmittedExactly(sdk: Sdk, terms: Terms, tx: Option<FrozenTx>, scheduled: bool, nextTimerId: nat,
                         run: seq<Timed>, i: nat) returns (n: nat)
    requires ValidRun(sdk, Created(terms, tx, scheduled, nextTimerId), run)
    requires i < |Final(sdk, Created(terms, tx, scheduled, nextTimerId), run).history.submissions|
    ensures n < |run| && run[n].event == Begin
    ensures var w0 := Created(terms, tx, scheduled, nextTimerId);
            var found, sub := Final(sdk, w0, run[..n]), Final(sdk, w0, run).history.submissions[i];
            && |found.history.submissions| == i && |found.history.injected| > 0
            && sub.epoch == |found.history.injected| - 1 && sub.at == run[n].now
            && found.record.frozenTransaction == Some(found.history.injected[sub.epoch])
            && sdk.bodies(found.history.injected[sub.epoch].bytes).Some?
            && IsMadeOf(sub, sdk.bodies(found.history.injected[sub.epoch].bytes).value, found.record.signatures)
  {
    hide Step, Final, ValidRun, Assemble, IsMadeOf, AllBacked, EntriesOk;
    var w0 := Created(terms, tx, scheduled, nextTimerId);
    n := SubmissionBegins(sdk, w0, run, i);
    var found := Final(sdk, w0, run[..n]);
    CreatedSatisfiesInv(sdk, terms, tx, scheduled, nextTimerId);
    PrefixIsValid(sdk, w0, run, n);
    RunKeepsInv(sdk, w0, run[..n]);
    StoredListsAreNotEmpty(sdk, found);
    AssembledIsMadeOf(sdk, UpdateStatus(Read(found.record, run[n].now), Executing), Latest(found), run[n].now);
  }
}
