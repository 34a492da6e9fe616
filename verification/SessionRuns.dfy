/** Whole runs of a signing session: what holds of every submission, every stored signature, every
    delivery and every timer, however the handlers interleave. */
module SessionRuns {
  import opened Wrappers
  import opened Base64
  import opened SignatureVerifier
  import opened KeyUtils
  import opened SessionProtocol
  import opened SessionInvariant

  datatype Timed = Timed(event: Event, now: int)

  predicate ValidRun(sdk: Sdk, w: Session, run: seq<Timed>)
    decreases |run|
  {
    run != [] ==>
      && Enabled(w, run[0].event)
      && ValidRun(sdk, Step(sdk, w, run[0].event, run[0].now), run[1..])
  }

  function Final(sdk: Sdk, w: Session, run: seq<Timed>): Session
    decreases |run|
  {
    if run == [] then w else Final(sdk, Step(sdk, w, run[0].event, run[0].now), run[1..])
  }

  lemma {:induction false} RunKeepsInv(sdk: Sdk, w: Session, run: seq<Timed>)
    requires Inv(sdk, w) && ValidRun(sdk, w, run)
    ensures Inv(sdk, Final(sdk, w, run))
    decreases |run|
  {
    hide Inv, Step, Enabled;
    if run != [] {
      StepKeepsInv(sdk, w, run[0].event, run[0].now);
      RunKeepsInv(sdk, Step(sdk, w, run[0].event, run[0].now), run[1..]);
    }
  }

  lemma {:induction false} RunOneMore(sdk: Sdk, w: Session, run: seq<Timed>, last: Timed)
    ensures ValidRun(sdk, w, run + [last]) <==> ValidRun(sdk, w, run) && Enabled(Final(sdk, w, run), last.event)
    ensures Final(sdk, w, run + [last]) == Step(sdk, Final(sdk, w, run), last.event, last.now)
    decreases |run|
  {
    hide Step, Enabled;
    if run == [] {
      assert [last][1..] == [];
      assert run + [last] == [last];
    } else {
      assert (run + [last])[1..] == run[1..] + [last];
      RunOneMore(sdk, Step(sdk, w, run[0].event, run[0].now), run[1..], last);
    }
  }

  lemma {:induction false} PrefixIsValid(sdk: Sdk, w: Session, run: seq<Timed>, n: nat)
    requires ValidRun(sdk, w, run) && n <= |run|
    ensures ValidRun(sdk, w, run[..n])
    decreases |run|
  {
    hide Step, Enabled;
    if n > 0 {
      assert run[..n][1..] == run[1..][..n - 1];
      PrefixIsValid(sdk, Step(sdk, w, run[0].event, run[0].now), run[1..], n - 1);
    }
  }

  // ---- Submissions

  /** The steps that touch neither the transaction, nor the signatures, nor the timers. */
  predicate IsQuiet(e: Event) {
    !e.Submit? && !e.Inject? && !e.InjectByManager? && !e.Reject? && !e.Reset? && !e.ExpiryTimerFires?
  }

  predicate Quiet(w: Session, w': Session) {
    && w'.record == w.record.(status := w'.record.status, scheduled := w'.record.scheduled,
                              participants := w'.record.participants, stats := w'.record.stats)
    && (w.record.scheduled ==> w'.record.scheduled)
    && w'.timers == w.timers
    && w'.history.injected == w.history.injected
    && w'.history.injectedAt == w.history.injectedAt
    && w.history.submissions <= w'.history.submissions
  }

  lemma ParticipantRecordsAreQuiet(r: Record, id: ParticipantId, publicKey: Option<string>, status: string)
    ensures UpdateParticipantStatus(r, id, status) == r.(participants := UpdateParticipantStatus(r, id, status).participants)
    ensures AddParticipant(r, id) == r.(participants := AddParticipant(r, id).participants, stats := AddParticipant(r, id).stats)
    ensures RemoveParticipant(r, id) ==
            r.(participants := RemoveParticipant(r, id).participants, stats := RemoveParticipant(r, id).stats)
    ensures id in r.participants ==>
              var r' := SetParticipantReady(r, id, publicKey);
              r' == r.(participants := r'.participants, stats := r'.stats)
  {
  }

  lemma BeginIsQuiet(sdk: Sdk, w: Session, now: int)
    ensures Quiet(w, BeginExecution(sdk, w, now))
  {
    hide Assemble;
  }

  lemma FinishIsQuiet(w: Session, ok: bool, now: int)
    ensures Quiet(w, FinishExecution(w, ok, now))
  {
  }

  lemma ReadIsQuiet(w: Session, now: int)
    ensures Quiet(w, ReadSession(w, now))
    ensures Quiet(w, w.(record := Cleanup(w.record, now)))
    ensures Quiet(w, ReadSession(w.(record := Read(w.record, now).(scheduled := true)), now))
    ensures Quiet(w, w.(record := UpdateStatus(w.record, Cancelled)))
  {
  }

  lemma ParticipantsAreQuiet(sdk: Sdk, w: Session, e: Event, now: int)
    requires e.Join? || e.Reconnect? || e.SocketStopsBeingOpen? || e.Close? || e.Ready? || e.StatusUpdate?
    ensures Quiet(w, Step(sdk, w, e, now))
  {
    hide RemoveParticipant, SetParticipantReady, UpdateParticipantStatus, AddParticipant;
    match e
    case Close(id) => ParticipantRecordsAreQuiet(w.record, id, None, "");
    case Ready(id, publicKey) => ParticipantRecordsAreQuiet(w.record, id, publicKey, "");
    case StatusUpdate(id, status) => ParticipantRecordsAreQuiet(w.record, id, None, status);
    case Join(id) => ParticipantRecordsAreQuiet(Read(w.record, now), id, None, "");
    case _ =>
  }

  lemma QuietStep(sdk: Sdk, w: Session, e: Event, now: int)
    requires IsQuiet(e)
    ensures Quiet(w, Step(sdk, w, e, now))
  {
    hide Quiet, BeginExecution, FinishExecution, ReadSession, Read, Cleanup, UpdateStatus;
    match e
    case Begin => BeginIsQuiet(sdk, w, now);
    case Finish(ok) => FinishIsQuiet(w, ok, now);
    case ReadEvent => ReadIsQuiet(w, now);
    case CleanupEvent => ReadIsQuiet(w, now);
    case AnnounceSchedule => ReadIsQuiet(w, now);
    case Cancel => ReadIsQuiet(w, now);
    case _ => hide Step; ParticipantsAreQuiet(sdk, w, e, now);
  }

  /** What a step adds to the history: never rewritten, only extended. */
  predicate Extends(w: Session, w': Session) {
    && w.history.injected <= w'.history.injected
    && w.history.submissions <= w'.history.submissions
    && w'.record.terms == w.record.terms
    && (w.record.scheduled ==> w'.record.scheduled)
  }

  lemma SubmitExtends(sdk: Sdk, w: Session, id: ParticipantId, t: SignatureTuple, now: int)
    ensures Extends(w, w.(record := SubmitSignature(sdk, w.record, id, t, now)))
  {
    hide CheckSubmission, SignatureList;
  }

  // What the handlers that touch the transaction do to the rest.

  lemma ReplaceEffect(w: Session, tx: FrozenTx, now: int)
    ensures var w' := ReplaceTransaction(w, tx, now);
            && Extends(w, w')
            && w'.record.signatures == map[] && w'.record.frozenTransaction == Some(tx)
            && w'.record.status == TransactionReceived
            && w'.history.injected == w.history.injected + [tx]
            && w'.record.expirationTimerId == w.record.expirationTimerId
            && w'.timers == Disarm(w).timers
            && w'.sockets == w.sockets
  {
    hide ResetParticipant;
  }

  lemma RejectEffect(w: Session, id: ParticipantId, now: int)
    ensures var w' := RejectTransaction(w, id, now);
            && Extends(w, w') && w'.record.signatures == map[]
            && w'.record.status == (if PastExpiry(w.record, now) then Expired else Waiting)
  {
    hide ResetParticipant;
  }

  lemma ResetEffect(w: Session, now: int)
    ensures var w' := ResetTransaction(w, now);
            var clears := Read(w.record, now).status in {TransactionReceived, Signing, TransactionExpired, Waiting};
            && Extends(w, w')
            && w'.record.signatures == (if clears then map[] else w.record.signatures)
            && w'.record.status == (if clears then Waiting else Read(w.record, now).status)
  {
    hide WrittenStatus, IsValidTransition;
    var r := Read(w.record, now);
    ToWaiting(r.(frozenTransaction := None, signatures := map[], stats := r.stats.(signaturesCollected := 0)));
  }

  lemma ToWaiting(r: Record)
    ensures UpdateStatus(r, Waiting) == r.(status := Waiting)
  {
  }

  lemma ExpireEffect(w: Session, now: int)
    ensures var w' := ExpireTransaction(w, now);
            var clears := Read(w.record, now).status !in {Completed, TransactionExpired};
            && Extends(w, w')
            && w'.record.signatures == (if clears then map[] else w.record.signatures)
            && w'.record.status == (if clears then Waiting else Read(w.record, now).status)
  {
  }

  lemma AnnouncedEffect(w: Session, arm: bool, timerId: Option<nat>, now: int)
    ensures var w2 := if arm then ArmTimer(w, timerId) else w;
            var w' := DeliverToAll(ReadSession(w2, now));
            && Extends(w, w') && w'.record.signatures == w.record.signatures
            && w'.record.status == Read(w.record, now).status
  {
  }

  lemma InjectEffect(w: Session, tx: FrozenTx, life: Lifetime, timerId: Option<nat>, now: int)
    ensures var w' := InjectTransaction(w, tx, life, timerId, now);
            && Extends(w, w') && w'.record.signatures == map[]
            && w'.record.status in {TransactionReceived, Waiting, Expired}
            && (!PastExpiry(w.record, now) ==> w'.record.status != Expired)
  {
    hide ReplaceTransaction, TimeUntilExpiry, ExpireTransaction, DeliverToAll, ReadSession, ArmTimer;
    var w1 := ReplaceTransaction(w, tx, now);
    ReplaceEffect(w, tx, now);
    ExpireEffect(w1, now);
    AnnouncedEffect(w1, life.Known? && life.validStart != 0, timerId, now);
  }

  lemma InjectDirectlyEffect(w: Session, tx: FrozenTx, now: int)
    ensures var w' := InjectDirectly(w, tx, now);
            && Extends(w, w') && w'.record.signatures == w.record.signatures
            && w'.record.status == (if Read(w.record, now).status == Waiting then TransactionReceived
                                    else Read(w.record, now).status)
  {
  }

  lemma StepExtendsHistory(sdk: Sdk, w: Session, e: Event, now: int)
    ensures Extends(w, Step(sdk, w, e, now))
  {
    if IsQuiet(e) {
      hide Step;
      QuietStep(sdk, w, e, now);
    } else {
      hide SubmitSignature, InjectTransaction, InjectDirectly, RejectTransaction, ResetTransaction, ExpireTransaction;
      hide Read;
      match e
      case Submit(id, t) => SubmitExtends(sdk, w, id, t, now);
      case Inject(tx, life, timerId) => InjectEffect(w, tx, life, timerId, now);
      case Reject(id) => RejectEffect(w, id, now);
      case InjectByManager(tx) => InjectDirectlyEffect(w, tx, now);
      case Reset => ResetEffect(w, now);
      case ExpiryTimerFires(timer) => ExpireEffect(w.(timers := w.timers - {timer}), now);
    }
  }

  lemma {:induction false} RunExtendsHistory(sdk: Sdk, w: Session, run: seq<Timed>)
    ensures Extends(w, Final(sdk, w, run))
    decreases |run|
  {
    hide Step;
    if run != [] {
      StepExtendsHistory(sdk, w, run[0].event, run[0].now);
      RunExtendsHistory(sdk, Step(sdk, w, run[0].event, run[0].now), run[1..]);
    }
  }

  /** Every network submission of every run is of a transaction the session was given; the bodies
      sent are all of that transaction's, or exactly its first; at least as many eligible keys as
      the threshold asks for each attach, for every body sent, a signature that verifies against it; and it began before
      the session's own expiry. */
  lemma EverySubmissionIsBacked(sdk: Sdk, terms: Terms, tx: Option<FrozenTx>, scheduled: bool, nextTimerId: nat,
                                run: seq<Timed>, i: nat)
    requires ValidRun(sdk, Created(terms, tx, scheduled, nextTimerId), run)
    requires i < |Final(sdk, Created(terms, tx, scheduled, nextTimerId), run).history.submissions|
    ensures var w := Final(sdk, Created(terms, tx, scheduled, nextTimerId), run);
            var sub := w.history.submissions[i];
            sub.epoch < Epochs(w) && Backed(sdk, terms, w.history.injected[sub.epoch], sub)
  {
    hide Step, ValidRun, Final, Inv, Backed;
    var w0 := Created(terms, tx, scheduled, nextTimerId);
    CreatedSatisfiesInv(sdk, terms, tx, scheduled, nextTimerId);
    RunKeepsInv(sdk, w0, run);
    RunExtendsHistory(sdk, w0, run);
    BackedOf(sdk, Final(sdk, w0, run), i);
  }

  lemma BackedOf(sdk: Sdk, w: Session, i: nat)
    requires Inv(sdk, w) && i < |w.history.submissions|
    ensures w.history.submissions[i].epoch < Epochs(w)
    ensures Backed(sdk, w.record.terms, w.history.injected[w.history.submissions[i].epoch], w.history.submissions[i])
  {
    hide Backed, EntriesOk, EpochsIncrease;
  }

  /** Each injected transaction is submitted at most once, whatever its execution ended with. */
  lemma SubmittedAtMostOnce(sdk: Sdk, terms: Terms, tx: Option<FrozenTx>, scheduled: bool, nextTimerId: nat,
                            run: seq<Timed>, i: nat, j: nat)
    requires ValidRun(sdk, Created(terms, tx, scheduled, nextTimerId), run)
    requires i < j < |Final(sdk, Created(terms, tx, scheduled, nextTimerId), run).history.submissions|
    ensures var subs := Final(sdk, Created(terms, tx, scheduled, nextTimerId), run).history.submissions;
            subs[i].epoch < subs[j].epoch
  {
    hide Step, ValidRun, Final, EntriesOk, AllBacked;
    CreatedSatisfiesInv(sdk, terms, tx, scheduled, nextTimerId);
    RunKeepsInv(sdk, Created(terms, tx, scheduled, nextTimerId), run);
  }

  /** Once a transaction is submitted, no continuation of the run submits it again. */
  lemma NoResubmission(sdk: Sdk, w: Session, run: seq<Timed>, i: nat, j: nat)
    requires Inv(sdk, w) && ValidRun(sdk, w, run)
    requires i < |w.history.submissions| <= j < |Final(sdk, w, run).history.submissions|
    ensures Final(sdk, w, run).history.submissions[j].epoch != w.history.submissions[i].epoch
  {
    hide Step, ValidRun, Final, EntriesOk, AllBacked;
    RunKeepsInv(sdk, w, run);
    RunExtendsHistory(sdk, w, run);
    assert Final(sdk, w, run).history.submissions[i] == w.history.submissions[i];
  }

  /** Every attached list has exactly as many signatures as there are bodies sent, if and only if the
      execution was downgraded to one body or no signer sent more signatures than bodies. */
  lemma AttachedCountsMatch(sdk: Sdk, r: Record, epoch: nat, now: int, sub: Submission)
    requires r.frozenTransaction.Some? && Assemble(sdk, r, epoch, now) == Some(sub)
    requires ListsNotEmpty(r.signatures)
    ensures var all := sdk.bodies(r.frozenTransaction.value.bytes).value;
            (forall key :: key in sub.attached ==> |sub.attached[key]| == |sub.bodies|)
            <==> Downgrades(all, r.signatures) || forall key :: key in r.signatures ==> |r.signatures[key].signatures| <= |all|
  {
    hide DecodeSignature;
    var all := sdk.bodies(r.frozenTransaction.value.bytes).value;
    assert sub.attached.Keys == r.signatures.Keys;
    forall key | key in r.signatures
      ensures |sub.attached[key]| == if Downgrades(all, r.signatures) then 1 else |r.signatures[key].signatures|
    {
    }
    if !Downgrades(all, r.signatures) && |all| == 1 {
      assert forall key :: key in r.signatures ==> |r.signatures[key].signatures| >= 1;
    }
  }

  // ---- Stored signatures

  /** The steps that drop the collected signatures. */
  predicate Clears(w: Session, e: Event, now: int) {
    match e
    case Inject(_, _, _) => true
    case Reject(_) => true
    case Reset => Read(w.record, now).status in {TransactionReceived, Signing, TransactionExpired, Waiting}
    case ExpiryTimerFires(_) => Read(w.record, now).status !in {Completed, TransactionExpired}
    case _ => false
  }

  /** The submission accepted by this step. */
  predicate Accepts(sdk: Sdk, w: Session, e: Event, now: int) {
    e.Submit? && SubmitResult(sdk, w.record, e.id, e.tuple, now).Accepted?
  }

  /** The signature map changes in two ways only: a clearing step empties it, and an accepted
      submission adds one new key. */
  predicate OnSignatures(clears: bool, accepts: Option<string>, before: map<string, SignatureEntry>, after: map<string, SignatureEntry>) {
    && (clears ==> after == map[])
    && (!clears && accepts.Some? ==>
          accepts.value !in before && accepts.value in after && after == before[accepts.value := after[accepts.value]])
    && (!clears && accepts.None? ==> after == before)
  }

  lemma StepOnSignatures(sdk: Sdk, w: Session, e: Event, now: int)
    ensures OnSignatures(Clears(w, e, now), if Accepts(sdk, w, e, now) then Some(e.tuple.publicKey) else None,
                         w.record.signatures, Step(sdk, w, e, now).record.signatures)
  {
    if IsQuiet(e) {
      hide Step;
      QuietStep(sdk, w, e, now);
    } else {
      hide SubmitSignature, SubmitResult, InjectTransaction, InjectDirectly, RejectTransaction, ResetTransaction;
      hide ExpireTransaction, Read;
      match e
      case Submit(id, t) => SubmitOnSignatures(sdk, w.record, id, t, now);
      case Inject(tx, life, timerId) => InjectEffect(w, tx, life, timerId, now);
      case Reject(id) => RejectEffect(w, id, now);
      case InjectByManager(tx) => InjectDirectlyEffect(w, tx, now);
      case Reset => ResetEffect(w, now);
      case ExpiryTimerFires(timer) => ExpireEffect(w.(timers := w.timers - {timer}), now);
    }
  }

  lemma SubmitOnSignatures(sdk: Sdk, r: Record, id: ParticipantId, t: SignatureTuple, now: int)
    ensures var r' := SubmitSignature(sdk, r, id, t, now);
            && (SubmitResult(sdk, r, id, t, now).Accepted? ==>
                  && t.publicKey !in r.signatures
                  && t.publicKey in r'.signatures
                  && r'.signatures == r.signatures[t.publicKey := r'.signatures[t.publicKey]])
            && (SubmitResult(sdk, r, id, t, now).Rejected? ==> r'.signatures == r.signatures)
  {
    hide IsKeyEligible, TupleVerifies;
  }

  /** How many submissions were accepted since the last clearing step, starting from `n`. */
  function AcceptedSinceClear(sdk: Sdk, w: Session, run: seq<Timed>, n: nat): nat
    decreases |run|
  {
    if run == [] then n else
    var e, now := run[0].event, run[0].now;
    var m := if Clears(w, e, now) then 0 else if Accepts(sdk, w, e, now) then n + 1 else n;
    AcceptedSinceClear(sdk, Step(sdk, w, e, now), run[1..], m)
  }

  lemma {:induction false} SignaturesAreAcceptedSubmissions(sdk: Sdk, w: Session, run: seq<Timed>)
    ensures |Final(sdk, w, run).record.signatures| == AcceptedSinceClear(sdk, w, run, |w.record.signatures|)
    decreases |run|
  {
    hide Step, Clears, Accepts;
    if run != [] {
      StepOnSignatures(sdk, w, run[0].event, run[0].now);
      ClearsOrAccepts(sdk, w, run[0].event, run[0].now);
      SignaturesAreAcceptedSubmissions(sdk, Step(sdk, w, run[0].event, run[0].now), run[1..]);
    }
  }

  lemma ClearsOrAccepts(sdk: Sdk, w: Session, e: Event, now: int)
    ensures !(Clears(w, e, now) && Accepts(sdk, w, e, now))
  {
  }

  /** The counters a client is shown are exact in every run: signatures collected are the submissions
      accepted since the last clearing step, and participants connected are the participants held. */
  lemma CountersAreExact(sdk: Sdk, terms: Terms, tx: Option<FrozenTx>, scheduled: bool, nextTimerId: nat, run: seq<Timed>)
    requires ValidRun(sdk, Created(terms, tx, scheduled, nextTimerId), run)
    ensures var w0 := Created(terms, tx, scheduled, nextTimerId);
            var r := Final(sdk, w0, run).record;
            && r.stats.signaturesCollected == |r.signatures| == AcceptedSinceClear(sdk, w0, run, 0)
            && r.stats.participantsConnected == |r.participants|
  {
    hide Step, ValidRun, Final, EntriesOk, AllBacked, AcceptedSinceClear;
    var w0 := Created(terms, tx, scheduled, nextTimerId);
    CreatedSatisfiesInv(sdk, terms, tx, scheduled, nextTimerId);
    RunKeepsInv(sdk, w0, run);
    SignaturesAreAcceptedSubmissions(sdk, w0, run);
  }

  predicate NothingClears(sdk: Sdk, w: Session, run: seq<Timed>)
    decreases |run|
  {
    run != [] ==>
      && !Clears(w, run[0].event, run[0].now)
      && NothingClears(sdk, Step(sdk, w, run[0].event, run[0].now), run[1..])
  }

  /** Between clearing steps every stored signature stays as it is, and a met threshold stays met,
      through any disconnects, status updates, cancellations and executions. */
  lemma {:induction false} SignaturesOnlyGrow(sdk: Sdk, w: Session, run: seq<Timed>)
    requires NothingClears(sdk, w, run)
    ensures var r := Final(sdk, w, run).record;
            && (forall key :: key in w.record.signatures ==> key in r.signatures && r.signatures[key] == w.record.signatures[key])
            && |w.record.signatures| <= |r.signatures|
            && (IsThresholdMet(w.record) ==> IsThresholdMet(r))
    decreases |run|
  {
    hide Step, Clears, Accepts;
    if run != [] {
      StepOnSignatures(sdk, w, run[0].event, run[0].now);
      StepExtendsHistory(sdk, w, run[0].event, run[0].now);
      SignaturesOnlyGrow(sdk, Step(sdk, w, run[0].event, run[0].now), run[1..]);
    }
  }

  /** In every run, every stored signature is from an eligible key, verifies for the transaction the
      session holds now, and was accepted before the session's expiry and, in a realtime session,
      within 120 seconds of that transaction's injection. */
  lemma EveryStoredSignatureIsGood(sdk: Sdk, terms: Terms, tx: Option<FrozenTx>, scheduled: bool, nextTimerId: nat,
                                   run: seq<Timed>, key: string)
    requires ValidRun(sdk, Created(terms, tx, scheduled, nextTimerId), run)
    requires key in Final(sdk, Created(terms, tx, scheduled, nextTimerId), run).record.signatures
    ensures var w := Final(sdk, Created(terms, tx, scheduled, nextTimerId), run);
            var entry := w.record.signatures[key];
            && |w.history.injected| > 0
            && w.record.frozenTransaction == Some(w.history.injected[|w.history.injected| - 1])
            && entry.publicKey == key && entry.signatures != [] && entry.signature == entry.signatures[0]
            && IsKeyEligible(key, terms.eligiblePublicKeys)
            && VerifiedFor(sdk, w.record.frozenTransaction.value.bytes, key, entry.signatures)
            && (terms.expiresAt.Some? ==> entry.timestamp <= terms.expiresAt.value)
            && (w.history.injectedAt.Some? && !w.record.scheduled ==> entry.timestamp <= w.history.injectedAt.value + 120000)
            && w.record.status != Waiting
  {
    hide Step, ValidRun, Final, AllBacked, EpochsIncrease, IsKeyEligible, VerifiedFor;
    var w0 := Created(terms, tx, scheduled, nextTimerId);
    CreatedSatisfiesInv(sdk, terms, tx, scheduled, nextTimerId);
    RunKeepsInv(sdk, w0, run);
    RunExtendsHistory(sdk, w0, run);
    var w := Final(sdk, w0, run);
    assert EntryOk(sdk, terms, w.record.frozenTransaction.value, SigningDeadline(w), key, w.record.signatures[key]);
  }

  /** Only an injection sets a time of receipt. */
  predicate WindowFits(w: Session) {
    w.history.injectedAt.None? ==> w.record.transactionReceivedAt.None?
  }

  lemma DroppingKeepsWindowFits(w: Session, id: ParticipantId, now: int)
    requires WindowFits(w)
    ensures WindowFits(RejectTransaction(w, id, now))
    ensures WindowFits(ResetTransaction(w, now))
    ensures WindowFits(ExpireTransaction(w, now))
  {
    hide ResetParticipant, UpdateParticipantStatus, ClearTransactionState;
  }

  lemma InjectingKeepsWindowFits(w: Session, tx: FrozenTx, life: Lifetime, timerId: Option<nat>, now: int)
    requires WindowFits(w)
    ensures WindowFits(InjectTransaction(w, tx, life, timerId, now))
    ensures WindowFits(InjectDirectly(w, tx, now))
  {
    hide ClearTransactionState, TimeUntilExpiry;
  }

  lemma SubmittingKeepsWindowFits(sdk: Sdk, w: Session, id: ParticipantId, t: SignatureTuple, now: int)
    requires WindowFits(w)
    ensures WindowFits(w.(record := SubmitSignature(sdk, w.record, id, t, now)))
  {
    hide CheckSubmission, SignatureList;
  }

  lemma StepKeepsWindowFits(sdk: Sdk, w: Session, e: Event, now: int)
    requires WindowFits(w)
    ensures WindowFits(Step(sdk, w, e, now))
  {
    if IsQuiet(e) {
      hide Step;
      QuietStep(sdk, w, e, now);
    } else {
      hide SubmitSignature, InjectTransaction, InjectDirectly, RejectTransaction, ResetTransaction, ExpireTransaction;
      hide Read;
      match e
      case Submit(id, t) => SubmittingKeepsWindowFits(sdk, w, id, t, now);
      case Inject(tx, life, timerId) => InjectingKeepsWindowFits(w, tx, life, timerId, now);
      case InjectByManager(tx) => InjectingKeepsWindowFits(w, tx, Unknown, None, now);
      case Reject(id) => DroppingKeepsWindowFits(w, id, now);
      case Reset => DroppingKeepsWindowFits(w, "", now);
      case ExpiryTimerFires(timer) => DroppingKeepsWindowFits(w.(timers := w.timers - {timer}), "", now);
    }
  }

  lemma {:induction false} RunKeepsWindowFits(sdk: Sdk, w: Session, run: seq<Timed>)
    requires WindowFits(w)
    ensures WindowFits(Final(sdk, w, run))
    decreases |run|
  {
    hide Step, WindowFits;
    if run != [] {
      StepKeepsWindowFits(sdk, w, run[0].event, run[0].now);
      RunKeepsWindowFits(sdk, Step(sdk, w, run[0].event, run[0].now), run[1..]);
    }
  }

  /** In every reachable state, a well-formed submission to a session that accepts signatures and holds a
      transaction is refused for lateness if and only if that transaction was injected, the session is
      realtime, and more than 120 seconds have passed since the injection. A transaction the session was
      created with is never late. */
  lemma LateExactlyAfterInjection(sdk: Sdk, terms: Terms, tx: Option<FrozenTx>, scheduled: bool, nextTimerId: nat,
                                  run: seq<Timed>, id: ParticipantId, t: SignatureTuple, now: int)
    requires ValidRun(sdk, Created(terms, tx, scheduled, nextTimerId), run)
    ensures var w := Final(sdk, Created(terms, tx, scheduled, nextTimerId), run);
            SubmitResult(sdk, w.record, id, t, now) == Rejected(WindowExpired)
            <==>
            && Read(w.record, now).status in {TransactionReceived, Signing, Active}
            && t.publicKey != "" && SignatureList(t).Some? && w.record.frozenTransaction.Some?
            && w.history.injectedAt.Some? && !w.record.scheduled && now > w.history.injectedAt.value + 120000
  {
    hide Step, ValidRun, Final, EntriesOk, AllBacked, EpochsIncrease, IsKeyEligible, TupleVerifies, SignatureList;
    var w0 := Created(terms, tx, scheduled, nextTimerId);
    CreatedSatisfiesInv(sdk, terms, tx, scheduled, nextTimerId);
    RunKeepsInv(sdk, w0, run);
    RunKeepsWindowFits(sdk, w0, run);
  }

  // ---- Status

  predicate DocumentedAsTerminal(s: Status) {
    s != Active && DocumentedNext(s) == {}
  }

  /** The four states documented as terminal. */
  lemma DocumentedTerminalStates(s: Status)
    ensures DocumentedAsTerminal(s) <==> s in {Completed, ExecutionFailed, Expired, Cancelled}
  {
  }

  predicate LifetimeOver(life: Lifetime, now: int) {
    life.Known? && life.validStart != 0 && TimeUntilExpiry(life, now) <= 0
  }

  /** The steps that leave a state documented as terminal. Before the session's expiry they are an
      injection, a rejection, an expiry timer, a cancellation and a late answer from the network. Past it
      every step that reads the session makes it expired; the sweep spares a completed one, a socket that
      stops being open and a ready message from an unknown participant read nothing, an injection of a
      transaction whose lifetime is over and an expiry timer make it waiting. */
  predicate LeavesTerminal(w: Session, e: Event, now: int) {
    var s, past := w.record.status, PastExpiry(w.record, now);
    match e
    case Inject(_, life, _) => !past || s != Expired || LifetimeOver(life, now)
    case Reject(_) => !past || s != Expired
    case ExpiryTimerFires(_) => past || s != Completed
    case Cancel => s != Cancelled
    case Finish(ok) => if ok then s != Completed else past && s != Expired
    case CleanupEvent => past && s != Expired && s != Completed
    case SocketStopsBeingOpen(_) => false
    case Ready(id, _) => past && s != Expired && id in w.record.participants
    case _ => past && s != Expired
  }

  /** The states documented as terminal are not: exactly those steps leave one of them. */
  lemma TerminalStatesAreLeftBy(sdk: Sdk, w: Session, e: Event, now: int)
    requires DocumentedAsTerminal(w.record.status)
    ensures Step(sdk, w, e, now).record.status != w.record.status <==> LeavesTerminal(w, e, now)
  {
    if e.Join? || e.Reconnect? || e.SocketStopsBeingOpen? || e.Close? || e.Ready? || e.StatusUpdate? {
      hide Step, LeavesTerminal;
      ParticipantsLeaveTerminal(sdk, w, e, now);
    } else {
      hide SubmitSignature, InjectTransaction, InjectDirectly, RejectTransaction, ResetTransaction, ExpireTransaction;
      hide BeginExecution, FinishExecution, LifetimeOver;
      match e
      case Submit(id, t) => TerminalRefusesSubmission(sdk, w.record, id, t, now);
      case Inject(tx, life, timerId) =>
        InjectEffect(w, tx, life, timerId, now);
        if PastExpiry(w.record, now) { InjectPastExpiry(w, tx, life, timerId, now); }
      case Reject(id) => RejectEffect(w, id, now);
      case InjectByManager(tx) => InjectDirectlyEffect(w, tx, now);
      case Reset => ResetEffect(w, now);
      case ExpiryTimerFires(timer) => ExpireEffect(w.(timers := w.timers - {timer}), now);
      case Begin => TerminalRefusesExecution(sdk, w, now);
      case Finish(ok) => TerminalAnswered(w, ok, now);
      case _ =>
    }
  }

  lemma ParticipantsLeaveTerminal(sdk: Sdk, w: Session, e: Event, now: int)
    requires e.Join? || e.Reconnect? || e.SocketStopsBeingOpen? || e.Close? || e.Ready? || e.StatusUpdate?
    requires DocumentedAsTerminal(w.record.status)
    ensures Step(sdk, w, e, now).record.status != w.record.status <==> LeavesTerminal(w, e, now)
  {
    hide RemoveParticipant, SetParticipantReady, AddParticipant, UpdateParticipantStatus, ParticipantReady;
    match e
    case Close(id) => ParticipantRecordsAreQuiet(w.record, id, None, "");
    case Ready(id, publicKey) => ReadyStatus(w, id, publicKey, now);
    case StatusUpdate(id, status) => ParticipantRecordsAreQuiet(w.record, id, None, status);
    case Join(id) => ParticipantRecordsAreQuiet(Read(w.record, now), id, None, "");
    case _ =>
  }

  lemma TerminalAnswered(w: Session, ok: bool, now: int)
    requires DocumentedAsTerminal(w.record.status)
    ensures FinishExecution(w, ok, now).record.status == if ok then Completed else Read(w.record, now).status
  {
  }

  lemma ReadyStatus(w: Session, id: ParticipantId, publicKey: Option<string>, now: int)
    ensures ParticipantReady(w, id, publicKey, now).record.status ==
            if id in w.record.participants then Read(w.record, now).status else w.record.status
  {
    hide SetParticipantReady;
    ParticipantRecordsAreQuiet(w.record, id, publicKey, "");
  }

  lemma InjectPastExpiry(w: Session, tx: FrozenTx, life: Lifetime, timerId: Option<nat>, now: int)
    requires PastExpiry(w.record, now)
    ensures InjectTransaction(w, tx, life, timerId, now).record.status == if LifetimeOver(life, now) then Waiting else Expired
  {
    hide ReplaceTransaction, TimeUntilExpiry, ExpireTransaction, DeliverToAll, ReadSession, ArmTimer;
    var w1 := ReplaceTransaction(w, tx, now);
    ReplaceEffect(w, tx, now);
    ExpireEffect(w1, now);
    AnnouncedEffect(w1, life.Known? && life.validStart != 0, timerId, now);
  }

  lemma TerminalRefusesSubmission(sdk: Sdk, r: Record, id: ParticipantId, t: SignatureTuple, now: int)
    requires DocumentedAsTerminal(r.status)
    ensures SubmitSignature(sdk, r, id, t, now).status == Read(r, now).status
  {
    hide CheckSubmission;
  }

  lemma TerminalRefusesExecution(sdk: Sdk, w: Session, now: int)
    requires DocumentedAsTerminal(w.record.status)
    ensures BeginExecution(sdk, w, now).record.status == Read(w.record, now).status
  {
    hide Assemble;
  }

  // ---- Delivery

  predicate AwaitsTransaction(w: Session, id: ParticipantId) {
    && id in w.record.participants
    && w.record.participants[id].status == "ready" && w.record.participants[id].keysLoaded
    && SocketOpen(w, id)
  }

  /** No ready participant with an open socket has missed the transaction in flight. */
  predicate NobodyMisses(w: Session) {
    InFlight(w.record) ==> forall id :: id in w.record.participants && AwaitsTransaction(w, id) ==> id in w.history.delivered
  }

  /** The steps after which a ready participant can be without the transaction in flight: the manager
      injects without a broadcast; a participant not yet served declares itself ready by a status
      update; or one not yet served reconnects while still marked ready. */
  predicate LeavesSomeoneOut(w: Session, e: Event, now: int) {
    var inFlight := InFlight(Read(w.record, now));
    match e
    case InjectByManager(_) =>
      Read(w.record, now).status == Waiting && exists id :: id in w.record.participants && AwaitsTransaction(w, id)
    case StatusUpdate(id, status) =>
      && inFlight && status == "ready" && id in w.record.participants
      && w.record.participants[id].keysLoaded && SocketOpen(w, id) && id !in w.history.delivered
    case Reconnect(id) =>
      && inFlight && id in w.record.participants && id !in w.history.delivered
      && w.record.participants[id].status == "ready" && w.record.participants[id].keysLoaded
    case _ => false
  }

  /** Nobody misses anything when nobody starts awaiting and no new flight begins. */
  lemma NoNewAwaiting(w: Session, w': Session)
    requires NobodyMisses(w)
    requires InFlight(w'.record) ==> InFlight(w.record)
    requires w.history.delivered <= w'.history.delivered
    requires forall id :: AwaitsTransaction(w', id) ==> AwaitsTransaction(w, id) || id in w'.history.delivered
    ensures NobodyMisses(w')
  {
  }

  lemma StatusStepDelivers(sdk: Sdk, w: Session, e: Event, now: int)
    requires NobodyMisses(w)
    requires e.ReadEvent? || e.CleanupEvent? || e.AnnounceSchedule? || e.Cancel? || e.Finish? || e.SocketStopsBeingOpen?
    ensures NobodyMisses(Step(sdk, w, e, now))
  {
    NoNewAwaiting(w, Step(sdk, w, e, now));
  }

  lemma BeginDelivers(sdk: Sdk, w: Session, now: int)
    requires NobodyMisses(w)
    ensures NobodyMisses(BeginExecution(sdk, w, now))
  {
    hide Assemble;
    NoNewAwaiting(w, BeginExecution(sdk, w, now));
  }

  lemma JoinDelivers(sdk: Sdk, w: Session, id: ParticipantId, now: int)
    requires NobodyMisses(w) && id !in w.record.participants
    ensures NobodyMisses(Step(sdk, w, Join(id), now))
  {
    NoNewAwaiting(w, Step(sdk, w, Join(id), now));
  }

  lemma CloseDelivers(w: Session, id: ParticipantId, now: int)
    requires NobodyMisses(w)
    ensures NobodyMisses(CloseSocket(w, id, now))
  {
    NoNewAwaiting(w, CloseSocket(w, id, now));
  }

  lemma OthersUnchangedByReady(r: Record, id: ParticipantId, publicKey: Option<string>)
    requires id in r.participants
    ensures var r' := SetParticipantReady(r, id, publicKey);
            && r'.status == r.status && r'.frozenTransaction == r.frozenTransaction && r'.terms == r.terms
            && forall other :: other != id ==>
                 (other in r'.participants <==> other in r.participants) &&
                 (other in r.participants ==> r'.participants[other] == r.participants[other])
  {
  }

  lemma ReadyDelivers(w: Session, id: ParticipantId, publicKey: Option<string>, now: int)
    requires NobodyMisses(w)
    ensures NobodyMisses(ParticipantReady(w, id, publicKey, now))
  {
    hide SetParticipantReady;
    if id in w.record.participants {
      OthersUnchangedByReady(w.record, id, publicKey);
      var w' := ParticipantReady(w, id, publicKey, now);
      if InFlight(w'.record) {
        assert forall other :: AwaitsTransaction(w', other) ==> AwaitsTransaction(w, other) || other == id;
        NoNewAwaiting(w, w');
      }
    }
  }

  lemma SubmitDelivers(sdk: Sdk, w: Session, id: ParticipantId, t: SignatureTuple, now: int)
    requires NobodyMisses(w)
    ensures NobodyMisses(w.(record := SubmitSignature(sdk, w.record, id, t, now)))
  {
    hide SignatureList, IsKeyEligible, TupleVerifies;
    NoNewAwaiting(w, w.(record := SubmitSignature(sdk, w.record, id, t, now)));
  }

  lemma InjectDelivers(w: Session, tx: FrozenTx, life: Lifetime, timerId: Option<nat>, now: int)
    ensures NobodyMisses(InjectTransaction(w, tx, life, timerId, now))
  {
    hide ReplaceTransaction;
  }

  lemma DropDelivers(w: Session, id: ParticipantId, now: int)
    requires NobodyMisses(w)
    ensures NobodyMisses(RejectTransaction(w, id, now))
    ensures NobodyMisses(ResetTransaction(w, now))
    ensures NobodyMisses(ExpireTransaction(w, now))
  {
    hide ResetParticipant, UpdateParticipantStatus;
    assert !InFlight(ResetTransaction(w, now).record);
  }

  lemma InjectDirectlyDelivers(w: Session, tx: FrozenTx, now: int)
    requires NobodyMisses(w)
    ensures NobodyMisses(InjectDirectly(w, tx, now)) <==> !LeavesSomeoneOut(w, InjectByManager(tx), now)
  {
    var w' := InjectDirectly(w, tx, now);
    if Read(w.record, now).status == Waiting {
      assert forall id :: AwaitsTransaction(w', id) <==> AwaitsTransaction(w, id);
    }
  }

  lemma StatusUpdateDelivers(sdk: Sdk, w: Session, id: ParticipantId, status: string, now: int)
    requires NobodyMisses(w)
    ensures NobodyMisses(Step(sdk, w, StatusUpdate(id, status), now)) <==> !LeavesSomeoneOut(w, StatusUpdate(id, status), now)
  {
    var w' := Step(sdk, w, StatusUpdate(id, status), now);
    assert forall other :: other != id ==> (AwaitsTransaction(w', other) <==> AwaitsTransaction(w, other));
    assert InFlight(w'.record) <==> InFlight(Read(w.record, now));
    assert LeavesSomeoneOut(w, StatusUpdate(id, status), now) ==> AwaitsTransaction(w', id);
  }

  lemma ReconnectDelivers(sdk: Sdk, w: Session, id: ParticipantId, now: int)
    requires NobodyMisses(w)
    ensures NobodyMisses(Step(sdk, w, Reconnect(id), now)) <==> !LeavesSomeoneOut(w, Reconnect(id), now)
  {
    var w' := Step(sdk, w, Reconnect(id), now);
    assert forall other :: other != id ==> (AwaitsTransaction(w', other) <==> AwaitsTransaction(w, other));
    assert InFlight(w'.record) <==> InFlight(Read(w.record, now));
    assert LeavesSomeoneOut(w, Reconnect(id), now) ==> AwaitsTransaction(w', id);
  }

  /** Exactly those steps break the promise that nobody misses the transaction. */
  lemma StepDelivers(sdk: Sdk, w: Session, e: Event, now: int)
    requires NobodyMisses(w) && Enabled(w, e)
    ensures NobodyMisses(Step(sdk, w, e, now)) <==> !LeavesSomeoneOut(w, e, now)
  {
    match e
    case Reconnect(id) => hide Step, LeavesSomeoneOut; ReconnectDelivers(sdk, w, id, now);
    case StatusUpdate(id, status) => hide Step, LeavesSomeoneOut; StatusUpdateDelivers(sdk, w, id, status, now);
    case InjectByManager(tx) => hide LeavesSomeoneOut, InjectDirectly; InjectDirectlyDelivers(w, tx, now);
    case _ => hide NobodyMisses; OtherStepsDeliver(sdk, w, e, now);
  }

  lemma OtherStepsDeliver(sdk: Sdk, w: Session, e: Event, now: int)
    requires NobodyMisses(w) && Enabled(w, e)
    requires !e.Reconnect? && !e.StatusUpdate? && !e.InjectByManager?
    ensures NobodyMisses(Step(sdk, w, e, now))
  {
    hide NobodyMisses, BeginExecution, CloseSocket, ParticipantReady, SubmitSignature, InjectTransaction, RejectTransaction;
    hide ResetTransaction, ExpireTransaction, FinishExecution, Cleanup, Read, AddParticipant, ReadSession;
    match e
    case Begin => BeginDelivers(sdk, w, now);
    case Join(id) => JoinDelivers(sdk, w, id, now);
    case Close(id) => CloseDelivers(w, id, now);
    case Ready(id, publicKey) => ReadyDelivers(w, id, publicKey, now);
    case Submit(id, t) => SubmitDelivers(sdk, w, id, t, now);
    case Inject(tx, life, timerId) => InjectDelivers(w, tx, life, timerId, now);
    case Reject(id) => DropDelivers(w, id, now);
    case Reset => DropDelivers(w, "", now);
    case ExpiryTimerFires(timer) => FireDelivers(w, timer, now);
    case _ => StatusStepDelivers(sdk, w, e, now);
  }

  lemma FireDelivers(w: Session, timer: nat, now: int)
    requires NobodyMisses(w)
    ensures NobodyMisses(ExpireTransaction(w.(timers := w.timers - {timer}), now))
  {
    hide ExpireTransaction;
    NoNewAwaiting(w, w.(timers := w.timers - {timer}));
    DropDelivers(w.(timers := w.timers - {timer}), "", now);
  }

  predicate NobodyLeftOut(sdk: Sdk, w: Session, run: seq<Timed>)
    decreases |run|
  {
    run != [] ==>
      && !LeavesSomeoneOut(w, run[0].event, run[0].now)
      && NobodyLeftOut(sdk, Step(sdk, w, run[0].event, run[0].now), run[1..])
  }

  /** In every run without those steps, whenever a transaction is in flight every ready participant
      with keys loaded and an open socket has been sent it. */
  lemma {:induction false} RunDelivers(sdk: Sdk, w: Session, run: seq<Timed>)
    requires NobodyMisses(w) && ValidRun(sdk, w, run) && NobodyLeftOut(sdk, w, run)
    ensures NobodyMisses(Final(sdk, w, run))
    decreases |run|
  {
    hide Step, NobodyMisses, LeavesSomeoneOut, Enabled;
    if run != [] {
      StepDelivers(sdk, w, run[0].event, run[0].now);
      RunDelivers(sdk, Step(sdk, w, run[0].event, run[0].now), run[1..]);
    }
  }

  // ---- Expiry timers

  /** The only pending expiry timer is the session's own, armed by the latest injection. */
  predicate TimersCurrent(w: Session) {
    forall id :: id in w.timers ==> w.record.expirationTimerId == Some(id) && w.timers[id] == Latest(w)
  }

  /** The manager injects over a pending timer, which it does not clear. */
  predicate StrandsTimer(w: Session, e: Event, now: int) {
    e.InjectByManager? && Read(w.record, now).status == Waiting && w.timers != map[] && Epochs(w) > 0
  }

  /** Exactly an injection by the manager over a pending timer makes a timer stale. */
  lemma StepKeepsTimersCurrent(sdk: Sdk, w: Session, e: Event, now: int)
    requires TimersCurrent(w)
    ensures TimersCurrent(Step(sdk, w, e, now)) <==> !StrandsTimer(w, e, now)
  {
    if IsQuiet(e) {
      hide Step;
      QuietStep(sdk, w, e, now);
    } else {
      hide SubmitSignature, InjectTransaction, InjectDirectly, RejectTransaction, ResetTransaction, ExpireTransaction;
      hide TimersCurrent, Read;
      match e
      case Submit(id, t) => SubmitKeepsTimer(sdk, w, id, t, now);
      case Inject(tx, life, timerId) => InjectKeepsTimersCurrent(w, tx, life, timerId, now);
      case InjectByManager(tx) => InjectDirectlyOnTimers(w, tx, now);
      case Reject(id) => RejectKeepsTimersCurrent(w, id, now);
      case Reset => DropKeepsTimersCurrent(w, 0, now);
      case ExpiryTimerFires(timer) => DropKeepsTimersCurrent(w, timer, now);
    }
  }

  lemma InjectDirectlyOnTimers(w: Session, tx: FrozenTx, now: int)
    requires TimersCurrent(w)
    ensures TimersCurrent(InjectDirectly(w, tx, now)) <==> !StrandsTimer(w, InjectByManager(tx), now)
  {
    if w.timers != map[] {
      var id :| id in w.timers;
      assert id in InjectDirectly(w, tx, now).timers;
    }
  }

  lemma RejectKeepsTimersCurrent(w: Session, id: ParticipantId, now: int)
    requires TimersCurrent(w)
    ensures TimersCurrent(RejectTransaction(w, id, now))
  {
    hide ResetParticipant;
    assert RejectTransaction(w, id, now).timers == Disarm(w).timers;
  }

  lemma DropKeepsTimersCurrent(w: Session, timer: nat, now: int)
    requires TimersCurrent(w)
    ensures TimersCurrent(ResetTransaction(w, now))
    ensures TimersCurrent(ExpireTransaction(w.(timers := w.timers - {timer}), now))
  {
  }

  lemma InjectKeepsTimersCurrent(w: Session, tx: FrozenTx, life: Lifetime, timerId: Option<nat>, now: int)
    requires TimersCurrent(w)
    ensures TimersCurrent(InjectTransaction(w, tx, life, timerId, now))
  {
    hide ReplaceTransaction;
    ReplaceEffect(w, tx, now);
    assert ReplaceTransaction(w, tx, now).timers == map[];
  }

  lemma SubmitKeepsTimer(sdk: Sdk, w: Session, id: ParticipantId, t: SignatureTuple, now: int)
    requires TimersCurrent(w)
    ensures TimersCurrent(w.(record := SubmitSignature(sdk, w.record, id, t, now)))
  {
    hide CheckSubmission, SignatureList;
  }

  predicate NoTimerStranded(sdk: Sdk, w: Session, run: seq<Timed>)
    decreases |run|
  {
    run != [] ==>
      && !StrandsTimer(w, run[0].event, run[0].now)
      && NoTimerStranded(sdk, Step(sdk, w, run[0].event, run[0].now), run[1..])
  }

  /** In every run in which the manager never injects over a pending timer, and so in every run whose
      transactions all arrive by TRANSACTION_INJECT, an expiry callback only ever runs for the latest
      injection. */
  lemma {:induction false} TimersFireForTheLatest(sdk: Sdk, w: Session, run: seq<Timed>)
    requires TimersCurrent(w) && ValidRun(sdk, w, run) && NoTimerStranded(sdk, w, run)
    ensures var w' := Final(sdk, w, run);
            TimersCurrent(w') && forall id :: Enabled(w', ExpiryTimerFires(id)) ==> w'.timers[id] == Latest(w')
    decreases |run|
  {
    hide Step, StrandsTimer;
    if run != [] {
      hide Enabled;
      StepKeepsTimersCurrent(sdk, w, run[0].event, run[0].now);
      RunKeepsCurrentTail(sdk, w, run);
    }
  }

  lemma RunKeepsCurrentTail(sdk: Sdk, w: Session, run: seq<Timed>)
    requires run != [] && ValidRun(sdk, w, run) && NoTimerStranded(sdk, w, run)
    requires TimersCurrent(Step(sdk, w, run[0].event, run[0].now))
    ensures var w' := Final(sdk, w, run);
            TimersCurrent(w') && forall id :: Enabled(w', ExpiryTimerFires(id)) ==> w'.timers[id] == Latest(w')
    decreases |run|, 0
  {
    hide Step, StrandsTimer;
    TimersFireForTheLatest(sdk, Step(sdk, w, run[0].event, run[0].now), run[1..]);
  }

  /** With an injection by the manager over a pending timer the promise fails: inject, reset, inject by
      the manager, and the first transaction's timer wipes the second transaction. */
  lemma StrandedTimerWipesNewerTransaction(sdk: Sdk, tx1: FrozenTx, tx2: FrozenTx)
    ensures var w := Created(Terms(1, [], None), None, false, 1);
            var before := [Timed(Inject(tx1, Known(1000, 120), Some(1)), 1000000), Timed(Reset, 1000001),
                           Timed(InjectByManager(tx2), 1000002)];
            var fired := Timed(ExpiryTimerFires(1), 1120000);
            && ValidRun(sdk, w, before + [fired])
            && Final(sdk, w, before).record.frozenTransaction == Some(tx2)
            && Final(sdk, w, before + [fired]).record.frozenTransaction == None
  {
    var w := Created(Terms(1, [], None), None, false, 1);
    var a, b, c, d := Timed(Inject(tx1, Known(1000, 120), Some(1)), 1000000), Timed(Reset, 1000001),
                      Timed(InjectByManager(tx2), 1000002), Timed(ExpiryTimerFires(1), 1120000);
    var w1 := InjectWithTimer(sdk, tx1);
    var w2 := ResetKeepsTimer(sdk, w1);
    var w3 := InjectDirectlyKeepsTimer(sdk, w2, tx2);
    TimerDropsTransaction(sdk, w3);
    hide Step, Created;
    RunOf4(sdk, w, a, b, c, d);
  }

  lemma InjectWithTimer(sdk: Sdk, tx: FrozenTx) returns (w1: Session)
    ensures w1 == Step(sdk, Created(Terms(1, [], None), None, false, 1), Inject(tx, Known(1000, 120), Some(1)), 1000000)
    ensures w1.timers == map[1 := 0] && w1.record.status == TransactionReceived && w1.record.terms.expiresAt.None?
    ensures Enabled(Created(Terms(1, [], None), None, false, 1), Inject(tx, Known(1000, 120), Some(1)))
  {
    hide ReplaceTransaction;
    var w := Created(Terms(1, [], None), None, false, 1);
    w1 := Step(sdk, w, Inject(tx, Known(1000, 120), Some(1)), 1000000);
    ReplaceEffect(w, tx, 1000000);
  }

  lemma ResetKeepsTimer(sdk: Sdk, w: Session) returns (w': Session)
    requires w.timers == map[1 := 0] && w.record.status == TransactionReceived && w.record.terms.expiresAt.None?
    ensures w' == Step(sdk, w, Reset, 1000001)
    ensures w'.timers == map[1 := 0] && w'.record.status == Waiting && w'.record.terms.expiresAt.None?
  {
    w' := Step(sdk, w, Reset, 1000001);
  }

  lemma InjectDirectlyKeepsTimer(sdk: Sdk, w: Session, tx: FrozenTx) returns (w': Session)
    requires w.timers == map[1 := 0] && w.record.status == Waiting && w.record.terms.expiresAt.None?
    ensures w' == Step(sdk, w, InjectByManager(tx), 1000002)
    ensures w'.timers == map[1 := 0] && w'.record.status == TransactionReceived && w'.record.terms.expiresAt.None?
    ensures w'.record.frozenTransaction == Some(tx)
  {
    w' := Step(sdk, w, InjectByManager(tx), 1000002);
  }

  lemma TimerDropsTransaction(sdk: Sdk, w: Session)
    requires w.timers == map[1 := 0] && w.record.status == TransactionReceived && w.record.terms.expiresAt.None?
    ensures Enabled(w, ExpiryTimerFires(1))
    ensures Step(sdk, w, ExpiryTimerFires(1), 1120000).record.frozenTransaction == None
  {
  }

  lemma RunOf4(sdk: Sdk, w: Session, a: Timed, b: Timed, c: Timed, d: Timed)
    ensures var w1 := Step(sdk, w, a.event, a.now);
            var w2 := Step(sdk, w1, b.event, b.now);
            var w3 := Step(sdk, w2, c.event, c.now);
            && (ValidRun(sdk, w, [a, b, c] + [d]) <==>
                  Enabled(w, a.event) && Enabled(w1, b.event) && Enabled(w2, c.event) && Enabled(w3, d.event))
            && Final(sdk, w, [a, b, c]) == w3
            && Final(sdk, w, [a, b, c] + [d]) == Step(sdk, w3, d.event, d.now)
  {
    hide Step, Enabled;
    assert [a, b, c][1..] == [b, c] && [b, c][1..] == [c] && [c][1..] == [];
    assert [a, b, c] + [d] == [a, b, c, d];
    assert [a, b, c, d][1..] == [b, c, d] && [b, c, d][1..] == [c, d] && [c, d][1..] == [d] && [d][1..] == [];
    var w1 := Step(sdk, w, a.event, a.now);
    var w2 := Step(sdk, w1, b.event, b.now);
    var w3 := Step(sdk, w2, c.event, c.now);
    assert Final(sdk, w3, [d]) == Step(sdk, w3, d.event, d.now);
    assert Final(sdk, w2, [c]) == w3;
    assert Final(sdk, w1, [b, c]) == w3;
    assert Final(sdk, w2, [c, d]) == Final(sdk, w3, [d]);
    assert Final(sdk, w1, [b, c, d]) == Final(sdk, w2, [c, d]);
    assert ValidRun(sdk, w3, [d]) <==> Enabled(w3, d.event);
    assert ValidRun(sdk, w2, [c, d]) <==> Enabled(w2, c.event) && Enabled(w3, d.event);
  }
}
