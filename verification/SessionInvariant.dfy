/** The inductive invariant of the signing session, and its preservation by every step. */
module SessionInvariant {
  import opened Wrappers
  import opened Base64
  import opened SignatureVerifier
  import opened KeyUtils
  import opened SessionProtocol

  /** The key's signatures verify, pair by pair, against the bodies of these transaction bytes. */
  predicate VerifiedFor(sdk: Sdk, bytes: Bytes, key: string, sigs: seq<string>) {
    && sdk.parsesKey(key)
    && sdk.bodies(bytes).Some? && sdk.bodies(bytes).value != []
    && VerifiesPairwise(sdk, key, sdk.bodies(bytes).value, sigs)
  }

  predicate NotAfter(t: int, limit: Option<int>) {
    limit.Some? ==> t <= limit.value
  }

  /** A stored entry is well formed, from an eligible key, verified for the transaction, and was
      accepted in time. */
  predicate EntryOk(sdk: Sdk, terms: Terms, tx: FrozenTx, deadline: Option<int>, key: string, e: SignatureEntry) {
    && e.publicKey == key
    && IsKeyEligible(key, terms.eligiblePublicKeys)
    && e.signatures != [] && e.signature == e.signatures[0]
    && VerifiedFor(sdk, tx.bytes, key, e.signatures)
    && NotAfter(e.timestamp, terms.expiresAt)
    && NotAfter(e.timestamp, deadline)
  }

  predicate EntriesOk(sdk: Sdk, terms: Terms, tx: FrozenTx, deadline: Option<int>, signatures: map<string, SignatureEntry>) {
    forall key :: key in signatures ==> EntryOk(sdk, terms, tx, deadline, key, signatures[key])
  }

  /** In a realtime session an injected transaction can be signed for 120 seconds. */
  function SigningDeadline(w: Session): Option<int> {
    if !w.record.scheduled && w.history.injectedAt.Some? then Some(w.history.injectedAt.value + VALIDITY_WINDOW_MS) else None
  }

  /** Waiting means nothing is held, and signatures are only held for a transaction. */
  predicate StatusFits(r: Record) {
    && (r.status == Waiting ==> r.frozenTransaction.None?)
    && (r.frozenTransaction.None? ==> r.signatures == map[])
  }

  predicate TransactionIsLatest(w: Session) {
    w.record.frozenTransaction.Some? ==>
      && Epochs(w) > 0
      && w.record.frozenTransaction.value == w.history.injected[Latest(w)]
      && (w.history.injectedAt.Some? ==> w.record.transactionReceivedAt == w.history.injectedAt)
  }

  predicate CountsFit(r: Record) {
    && r.stats.signaturesCollected == |r.signatures|
    && r.stats.participantsConnected == |r.participants|
  }

  predicate LockFits(w: Session) {
    !w.executing ==> w.record.status != Executing
  }

  /** At least as many eligible keys as the threshold asks for each attach, for every body sent, a signature that verifies
      against it; the bodies are all of the transaction's, or exactly its first. */
  predicate Backed(sdk: Sdk, terms: Terms, tx: FrozenTx, sub: Submission) {
    && sdk.bodies(tx.bytes).Some?
    && (var all := sdk.bodies(tx.bytes).value;
        && (sub.bodies == all || (all != [] && sub.bodies == [all[0]]))
        && (sub.attached != map[] ==> all != []))
    && |sub.attached| >= terms.threshold
    && (forall key :: key in sub.attached ==> IsKeyEligible(key, terms.eligiblePublicKeys))
    && (forall key, i :: key in sub.attached && 0 <= i < |sub.bodies| ==>
          i < |sub.attached[key]| && sdk.verify(key, sub.bodies[i], sub.attached[key][i]))
    && NotAfter(sub.at, terms.expiresAt)
  }

  /** Every submission is of a transaction the session was given, and is backed. */
  predicate AllBacked(sdk: Sdk, terms: Terms, injected: seq<FrozenTx>, subs: seq<Submission>) {
    forall i :: 0 <= i < |subs| ==>
      subs[i].epoch < |injected| && Backed(sdk, terms, injected[subs[i].epoch], subs[i])
  }

  /** Submissions are of ever later epochs. */
  predicate EpochsIncrease(subs: seq<Submission>) {
    forall i, j :: 0 <= i < j < |subs| ==> subs[i].epoch < subs[j].epoch
  }

  /** A state from which the latest transaction can no longer be submitted. */
  predicate Spent(r: Record) {
    || r.status in {Executing, Completed, ExecutionFailed, Cancelled, Expired}
    || (r.frozenTransaction.None? && r.signatures == map[])
  }

  predicate SubmittedIsSpent(w: Session) {
    var subs := w.history.submissions;
    subs != [] ==>
      && subs[|subs| - 1].epoch < Epochs(w)
      && (subs[|subs| - 1].epoch == Latest(w) ==> Spent(w.record))
  }

  predicate Inv(sdk: Sdk, w: Session) {
    && StatusFits(w.record)
    && TransactionIsLatest(w)
    && (w.record.frozenTransaction.Some? ==>
          EntriesOk(sdk, w.record.terms, w.record.frozenTransaction.value, SigningDeadline(w), w.record.signatures))
    && CountsFit(w.record)
    && LockFits(w)
    && AllBacked(sdk, w.record.terms, w.history.injected, w.history.submissions)
    && EpochsIncrease(w.history.submissions)
    && SubmittedIsSpent(w)
  }

  lemma CreatedSatisfiesInv(sdk: Sdk, terms: Terms, tx: Option<FrozenTx>, scheduled: bool, nextTimerId: nat)
    ensures Inv(sdk, Created(terms, tx, scheduled, nextTimerId))
  {
  }

  lemma StoredListsAreNotEmpty(sdk: Sdk, w: Session)
    requires Inv(sdk, w)
    ensures ListsNotEmpty(w.record.signatures)
  {
    hide AllBacked, EpochsIncrease, IsKeyEligible, VerifiedFor;
  }

  // ---- Two ways of keeping the invariant

  predicate SameTransactions(w: Session, w': Session) {
    && w'.history.injected == w.history.injected
    && w'.history.injectedAt == w.history.injectedAt
    && w'.history.submissions == w.history.submissions
  }

  lemma LaterDeadline(sdk: Sdk, terms: Terms, tx: FrozenTx, d: Option<int>, signatures: map<string, SignatureEntry>)
    requires EntriesOk(sdk, terms, tx, d, signatures)
    ensures EntriesOk(sdk, terms, tx, None, signatures)
  {
    forall key | key in signatures ensures EntryOk(sdk, terms, tx, None, key, signatures[key]) {
      assert EntryOk(sdk, terms, tx, d, key, signatures[key]);
    }
  }

  /** Nothing about the transaction changes, and no way back to execution opens. */
  lemma Carries(sdk: Sdk, w: Session, w': Session)
    requires Inv(sdk, w)
    requires w'.record.terms == w.record.terms && SameTransactions(w, w')
    requires w.record.scheduled ==> w'.record.scheduled
    requires w'.record.frozenTransaction == w.record.frozenTransaction
    requires w'.record.signatures == w.record.signatures
    requires w'.record.transactionReceivedAt == w.record.transactionReceivedAt
    requires w'.record.status == Waiting ==> w'.record.frozenTransaction.None?
    requires CountsFit(w'.record) && LockFits(w')
    requires Spent(w.record) ==> Spent(w'.record)
    ensures Inv(sdk, w')
  {
    hide EntriesOk, AllBacked, EpochsIncrease, IsKeyEligible;
    if w.record.frozenTransaction.Some? && SigningDeadline(w') != SigningDeadline(w) {
      LaterDeadline(sdk, w.record.terms, w.record.frozenTransaction.value, SigningDeadline(w), w.record.signatures);
    }
  }

  /** Everything about the transaction is dropped. */
  lemma Drops(sdk: Sdk, w: Session, w': Session)
    requires Inv(sdk, w)
    requires w'.record.terms == w.record.terms && SameTransactions(w, w')
    requires w'.record.frozenTransaction.None? && w'.record.signatures == map[]
    requires CountsFit(w'.record) && LockFits(w')
    ensures Inv(sdk, w')
  {
    hide EntriesOk, AllBacked, EpochsIncrease, IsKeyEligible;
  }

  lemma ReadKeepsInv(sdk: Sdk, w: Session, now: int)
    requires Inv(sdk, w)
    ensures Inv(sdk, ReadSession(w, now))
  {
    hide EntriesOk, AllBacked, EpochsIncrease, IsKeyEligible;
    Carries(sdk, w, ReadSession(w, now));
  }

  /** Changing participants and sockets only, with the head count kept right. */
  lemma ParticipantChangeKeepsInv(sdk: Sdk, w: Session, w': Session)
    requires Inv(sdk, w)
    requires w'.record == w.record.(participants := w'.record.participants, stats := w'.record.stats)
    requires w'.executing == w.executing && SameTransactions(w, w')
    requires CountsFit(w'.record)
    ensures Inv(sdk, w')
  {
    hide EntriesOk, AllBacked, EpochsIncrease, IsKeyEligible;
    Carries(sdk, w, w');
  }

  // ---- One lemma per handler

  lemma JoinKeepsInv(sdk: Sdk, w: Session, id: ParticipantId, now: int)
    requires Inv(sdk, w) && id !in w.record.participants
    ensures Inv(sdk, Step(sdk, w, Join(id), now))
  {
    hide EntriesOk, AllBacked, EpochsIncrease, IsKeyEligible;
    ReadKeepsInv(sdk, w, now);
    var w0 := ReadSession(w, now);
    var w1 := w0.(record := AddParticipant(w0.record, id), sockets := w.sockets[id := true]);
    ParticipantChangeKeepsInv(sdk, w0, w1);
    ReadKeepsInv(sdk, w1, now);
  }

  lemma RemoveParticipantCounts(r: Record, id: ParticipantId)
    requires CountsFit(r)
    ensures CountsFit(RemoveParticipant(r, id))
    ensures RemoveParticipant(r, id) ==
            r.(participants := RemoveParticipant(r, id).participants, stats := RemoveParticipant(r, id).stats)
  {
    if id in r.participants {
      assert (r.participants - {id}).Keys == r.participants.Keys - {id};
      var p := r.participants[id];
      assert r.participants[id := p.(previousStatus := Some(p.status), status := "disconnected")].Keys == r.participants.Keys;
    }
  }

  lemma CloseKeepsInv(sdk: Sdk, w: Session, id: ParticipantId, now: int)
    requires Inv(sdk, w)
    ensures Inv(sdk, CloseSocket(w, id, now))
  {
    hide EntriesOk, AllBacked, EpochsIncrease, RemoveParticipant;
    var w0 := w.(sockets := w.sockets - {id}, record := RemoveParticipant(w.record, id));
    RemoveParticipantCounts(w.record, id);
    ParticipantChangeKeepsInv(sdk, w, w0);
    ReadKeepsInv(sdk, w0, now);
  }

  lemma SetReadyCounts(r: Record, id: ParticipantId, publicKey: Option<string>)
    requires CountsFit(r) && id in r.participants
    ensures var r' := SetParticipantReady(r, id, publicKey);
            CountsFit(r') && r' == r.(participants := r'.participants, stats := r'.stats)
  {
    assert SetParticipantReady(r, id, publicKey).participants.Keys == r.participants.Keys;
  }

  lemma ReadyKeepsInv(sdk: Sdk, w: Session, id: ParticipantId, publicKey: Option<string>, now: int)
    requires Inv(sdk, w)
    ensures Inv(sdk, ParticipantReady(w, id, publicKey, now))
  {
    hide EntriesOk, AllBacked, EpochsIncrease, SetParticipantReady;
    if id in w.record.participants {
      SetReadyCounts(w.record, id, publicKey);
      var w0 := w.(record := SetParticipantReady(w.record, id, publicKey));
      ParticipantChangeKeepsInv(sdk, w, w0);
      ReadKeepsInv(sdk, w0, now);
      Carries(sdk, ReadSession(w0, now), ParticipantReady(w, id, publicKey, now));
    }
  }

  lemma StatusUpdateKeepsInv(sdk: Sdk, w: Session, id: ParticipantId, status: string, now: int)
    requires Inv(sdk, w)
    ensures Inv(sdk, Step(sdk, w, StatusUpdate(id, status), now))
  {
    hide EntriesOk, AllBacked, EpochsIncrease, IsKeyEligible;
    var w0 := w.(record := UpdateParticipantStatus(w.record, id, status));
    assert w0.record.participants.Keys == w.record.participants.Keys;
    ParticipantChangeKeepsInv(sdk, w, w0);
    ReadKeepsInv(sdk, w0, now);
  }

  lemma ClearedCounts(r: Record)
    requires CountsFit(r)
    ensures CountsFit(ClearTransactionState(r))
    ensures ClearTransactionState(r).signatures == map[]
    ensures ClearTransactionState(r).terms == r.terms
    ensures ClearTransactionState(r).scheduled == r.scheduled
  {
    assert ClearTransactionState(r).participants.Keys == r.participants.Keys;
  }

  lemma RejectedCounts(r: Record, id: ParticipantId, now: int)
    requires CountsFit(r)
    ensures var r' := Read(UpdateParticipantStatus(r, id, "rejected"), now);
            CountsFit(r') && r'.terms == r.terms && r'.scheduled == r.scheduled
  {
    assert UpdateParticipantStatus(r, id, "rejected").participants.Keys == r.participants.Keys;
  }

  lemma RejectKeepsInv(sdk: Sdk, w: Session, id: ParticipantId, now: int)
    requires Inv(sdk, w)
    ensures Inv(sdk, RejectTransaction(w, id, now))
  {
    hide EntriesOk, AllBacked, EpochsIncrease, UpdateParticipantStatus, ClearTransactionState;
    RejectedCounts(w.record, id, now);
    var r := ClearTransactionState(Read(UpdateParticipantStatus(w.record, id, "rejected"), now));
    ClearedCounts(Read(UpdateParticipantStatus(w.record, id, "rejected"), now));
    var w0 := Disarm(w.(record := r)).(
      record := r.(frozenTransaction := None, transactionReceivedAt := None, expirationTimerId := None, status := Waiting));
    Drops(sdk, w, w0);
    ReadKeepsInv(sdk, w0, now);
  }

  lemma ResetKeepsInv(sdk: Sdk, w: Session, now: int)
    requires Inv(sdk, w)
    ensures Inv(sdk, ResetTransaction(w, now))
  {
    hide EntriesOk, AllBacked, EpochsIncrease, IsKeyEligible;
    ReadKeepsInv(sdk, w, now);
    var r := Read(w.record, now);
    if r.status in {TransactionReceived, Signing, TransactionExpired, Waiting} {
      var cleared := r.(frozenTransaction := None, signatures := map[], stats := r.stats.(signaturesCollected := 0));
      var w0 := w.(record := if r.status == Waiting then cleared else UpdateStatus(cleared, Waiting));
      Drops(sdk, w, w0);
      ReadKeepsInv(sdk, w0, now);
    }
  }

  lemma ExpireKeepsInv(sdk: Sdk, w: Session, now: int)
    requires Inv(sdk, w)
    ensures Inv(sdk, ExpireTransaction(w, now))
  {
    hide EntriesOk, AllBacked, EpochsIncrease, IsKeyEligible;
    ReadKeepsInv(sdk, w, now);
    var r := Read(w.record, now);
    if r.status != Completed && r.status != TransactionExpired {
      Drops(sdk, w, w.(record := ExpireRecord(r)));
    }
  }

  lemma BackedAfterInjection(sdk: Sdk, terms: Terms, injected: seq<FrozenTx>, tx: FrozenTx, subs: seq<Submission>)
    requires AllBacked(sdk, terms, injected, subs)
    ensures AllBacked(sdk, terms, injected + [tx], subs)
  {
    forall i | 0 <= i < |subs| ensures Backed(sdk, terms, (injected + [tx])[subs[i].epoch], subs[i]) {
      assert (injected + [tx])[subs[i].epoch] == injected[subs[i].epoch];
    }
  }

  lemma NoEntries(sdk: Sdk, terms: Terms, tx: FrozenTx, deadline: Option<int>)
    ensures EntriesOk(sdk, terms, tx, deadline, map[])
  {
  }

  /** A new transaction, with no signatures yet, keeps the invariant whatever was there before. */
  lemma NewTransactionKeepsInv(sdk: Sdk, w: Session, w': Session, tx: FrozenTx, now: int)
    requires Inv(sdk, w)
    requires w'.record.terms == w.record.terms
    requires w'.history == NewTransaction(w, tx, now)
    requires w'.record.frozenTransaction == Some(tx) && w'.record.transactionReceivedAt == Some(now)
    requires w'.record.signatures == map[] && w'.record.status == TransactionReceived
    requires CountsFit(w'.record)
    ensures Inv(sdk, w')
  {
    hide EntriesOk, AllBacked, EpochsIncrease, IsKeyEligible;
    assert EntriesOk(sdk, w.record.terms, tx, SigningDeadline(w'), map[]) by {
      NoEntries(sdk, w.record.terms, tx, SigningDeadline(w'));
    }
    BackedAfterInjection(sdk, w.record.terms, w.history.injected, tx, w.history.submissions);
  }

  lemma ReplaceKeepsInv(sdk: Sdk, w: Session, tx: FrozenTx, now: int)
    requires Inv(sdk, w)
    ensures Inv(sdk, ReplaceTransaction(w, tx, now))
  {
    hide EntriesOk, AllBacked, EpochsIncrease, ClearTransactionState;
    ClearedCounts(Read(w.record, now));
    NewTransactionKeepsInv(sdk, w, ReplaceTransaction(w, tx, now), tx, now);
  }

  lemma InjectKeepsInv(sdk: Sdk, w: Session, tx: FrozenTx, life: Lifetime, timerId: Option<nat>, now: int)
    requires Inv(sdk, w)
    ensures Inv(sdk, InjectTransaction(w, tx, life, timerId, now))
  {
    hide EntriesOk, AllBacked, EpochsIncrease, ReplaceTransaction, ExpireTransaction;
    var w1 := ReplaceTransaction(w, tx, now);
    ReplaceKeepsInv(sdk, w, tx, now);
    if life.Known? && life.validStart != 0 && TimeUntilExpiry(life, now) <= 0 {
      ExpireKeepsInv(sdk, w1, now);
    } else {
      var w2 := if life.Known? && life.validStart != 0 then ArmTimer(w1, timerId) else w1;
      Carries(sdk, w1, w2);
      ReadKeepsInv(sdk, w2, now);
      Carries(sdk, ReadSession(w2, now), DeliverToAll(ReadSession(w2, now)));
    }
  }

  lemma InjectDirectlyKeepsInv(sdk: Sdk, w: Session, tx: FrozenTx, now: int)
    requires Inv(sdk, w)
    ensures Inv(sdk, InjectDirectly(w, tx, now))
  {
    hide EntriesOk, AllBacked, EpochsIncrease, IsKeyEligible;
    ReadKeepsInv(sdk, w, now);
    if Read(w.record, now).status == Waiting {
      NewTransactionKeepsInv(sdk, w, InjectDirectly(w, tx, now), tx, now);
    }
  }

  lemma EntriesAfterAdding(sdk: Sdk, terms: Terms, tx: FrozenTx, d: Option<int>,
                           signatures: map<string, SignatureEntry>, key: string, e: SignatureEntry)
    requires EntriesOk(sdk, terms, tx, d, signatures) && EntryOk(sdk, terms, tx, d, key, e)
    ensures EntriesOk(sdk, terms, tx, d, signatures[key := e])
  {
    hide EntryOk;
  }

  lemma AddSignatureKeepsInv(sdk: Sdk, w: Session, id: ParticipantId, key: string, sigs: seq<string>, now: int)
    requires Inv(sdk, w)
    requires w.record.frozenTransaction.Some? && id in w.record.participants && key !in w.record.signatures && sigs != []
    requires EntryOk(sdk, w.record.terms, w.record.frozenTransaction.value, SigningDeadline(w), key,
                     SignatureEntry(key, sigs, sigs[0], id, now))
    requires !Spent(w.record)
    ensures Inv(sdk, w.(record := AddSignature(w.record, id, key, sigs, now)))
  {
    hide EntryOk, EntriesOk, AllBacked, EpochsIncrease;
    EntriesAfterAdding(sdk, w.record.terms, w.record.frozenTransaction.value, SigningDeadline(w), w.record.signatures,
                       key, SignatureEntry(key, sigs, sigs[0], id, now));
    var w' := w.(record := AddSignature(w.record, id, key, sigs, now));
    assert w'.record.participants.Keys == w.record.participants.Keys;
  }

  /** What the manager checks before it stores a signature is what the invariant asks of an entry. */
  lemma CheckedEntryIsOk(sdk: Sdk, w: Session, id: ParticipantId, t: SignatureTuple, now: int)
    requires TransactionIsLatest(w) && !PastExpiry(w.record, now)
    requires CheckSubmission(sdk, w.record, id, t, now).None?
    ensures w.record.status in {TransactionReceived, Signing, Active}
    ensures w.record.frozenTransaction.Some? && id in w.record.participants && t.publicKey !in w.record.signatures
    ensures SignatureList(t).Some?
    ensures var sigs := SignatureList(t).value;
            EntryOk(sdk, w.record.terms, w.record.frozenTransaction.value, SigningDeadline(w), t.publicKey,
                    SignatureEntry(t.publicKey, sigs, sigs[0], id, now))
  {
    hide IsKeyEligible, VerifiesPairwise;
  }

  lemma StartSigningKeepsInv(sdk: Sdk, w: Session)
    requires Inv(sdk, w) && w.record.status in {TransactionReceived, Signing, Active}
    ensures var w' := w.(record := StartSigning(w.record));
            && Inv(sdk, w')
            && w'.record == w.record.(status := w'.record.status)
            && w'.record.status in {TransactionReceived, Signing, Active}
  {
    hide EntriesOk, AllBacked, EpochsIncrease;
    Carries(sdk, w, w.(record := StartSigning(w.record)));
  }

  lemma SubmitKeepsInv(sdk: Sdk, w: Session, id: ParticipantId, t: SignatureTuple, now: int)
    requires Inv(sdk, w)
    ensures Inv(sdk, w.(record := SubmitSignature(sdk, w.record, id, t, now)))
  {
    hide EntryOk, EntriesOk, AllBacked, EpochsIncrease, CheckSubmission, SignatureList, AddSignature, IsKeyEligible, StartSigning;
    ReadKeepsInv(sdk, w, now);
    var w0 := ReadSession(w, now);
    if w0.record.status in {TransactionReceived, Signing, Active} {
      var w1 := w0.(record := StartSigning(w0.record));
      StartSigningKeepsInv(sdk, w0);
      if CheckSubmission(sdk, w0.record, id, t, now).None? {
        CheckedEntryIsOk(sdk, w0, id, t, now);
        AddSignatureKeepsInv(sdk, w1, id, t.publicKey, SignatureList(t).value, now);
      }
    }
  }

  lemma ExecutionErrorKeepsInv(sdk: Sdk, w: Session, now: int)
    requires Inv(sdk, w)
    ensures Inv(sdk, w.(record := ExecutionError(w.record, now), executing := false))
  {
    hide EntriesOk, AllBacked, EpochsIncrease, IsKeyEligible;
    Carries(sdk, w, w.(record := ExecutionError(w.record, now), executing := false));
  }

  /** What is assembled from a session that satisfies the invariant is backed. */
  lemma AssembledIsBacked(sdk: Sdk, r: Record, deadline: Option<int>, epoch: nat, now: int, sub: Submission)
    requires IsThresholdMet(r) && !PastExpiry(r, now) && r.frozenTransaction.Some?
    requires Assemble(sdk, r, epoch, now) == Some(sub)
    requires EntriesOk(sdk, r.terms, r.frozenTransaction.value, deadline, r.signatures)
    ensures Backed(sdk, r.terms, r.frozenTransaction.value, sub) && sub.epoch == epoch
  {
    hide IsKeyEligible, VerifiesPairwise, DecodeSignature, AttachedList;
    var tx := r.frozenTransaction.value;
    var all := sdk.bodies(tx.bytes).value;
    assert sub.attached.Keys == r.signatures.Keys;
    assert |sub.attached| == |r.signatures|;
    assert Downgrades(all, r.signatures) ==> all[..1] == [all[0]];
    if r.signatures != map[] {
      SomeEntryVerifies(sdk, r, tx, deadline);
    }
    forall key | key in sub.attached
      ensures IsKeyEligible(key, r.terms.eligiblePublicKeys)
      ensures forall i :: 0 <= i < |sub.bodies| ==>
                i < |sub.attached[key]| && sdk.verify(key, sub.bodies[i], sub.attached[key][i])
    {
      assert EntryOk(sdk, r.terms, tx, deadline, key, r.signatures[key]);
      AttachedVerifies(sdk, key, all, r.signatures);
    }
  }

  lemma SomeEntryVerifies(sdk: Sdk, r: Record, tx: FrozenTx, deadline: Option<int>)
    requires r.signatures != map[]
    requires EntriesOk(sdk, r.terms, tx, deadline, r.signatures)
    ensures sdk.bodies(tx.bytes).Some? && sdk.bodies(tx.bytes).value != []
  {
    hide IsKeyEligible, VerifiesPairwise;
    var key :| key in r.signatures;
    assert EntryOk(sdk, r.terms, tx, deadline, key, r.signatures[key]);
  }

  lemma AttachedVerifies(sdk: Sdk, key: string, all: seq<Bytes>, signatures: map<string, SignatureEntry>)
    requires key in signatures && signatures[key].signatures != [] && all != []
    requires VerifiesPairwise(sdk, key, all, signatures[key].signatures)
    ensures var attached := AttachedList(Downgrades(all, signatures), signatures[key].signatures);
            forall i :: 0 <= i < (if Downgrades(all, signatures) then 1 else |all|) ==>
              i < |attached| && sdk.verify(key, all[i], attached[i])
  {
    hide DecodeSignature;
    var sigs := signatures[key].signatures;
    var count := if Downgrades(all, signatures) then 1 else |all|;
    assert count <= Min(|sigs|, |all|);
  }

  lemma BeginKeepsInv(sdk: Sdk, w: Session, now: int)
    requires Inv(sdk, w) && !w.executing
    ensures Inv(sdk, BeginExecution(sdk, w, now))
  {
    hide EntriesOk, AllBacked, EpochsIncrease, Assemble, Backed;
    ReadKeepsInv(sdk, w, now);
    var w0 := ReadSession(w, now);
    if RefusesExecution(w0.record.status) || !IsThresholdMet(w0.record) {
      ExecutionErrorKeepsInv(sdk, w0, now);
    } else {
      assert w0.record.frozenTransaction.Some? ==> !Spent(w0.record);
      var held := w0.(record := UpdateStatus(w0.record, Executing), executing := true);
      Carries(sdk, w0, held);
      match Assemble(sdk, held.record, Latest(w), now)
      case None => ExecutionErrorKeepsInv(sdk, held, now);
      case Some(sub) =>
        AssembledIsOfTransaction(sdk, held.record, Latest(w), now);
        AssembledIsBacked(sdk, held.record, SigningDeadline(held), Latest(w), now, sub);
        SubmissionKeepsInv(sdk, held, sub);
    }
  }

  lemma AssembledIsOfTransaction(sdk: Sdk, r: Record, epoch: nat, now: int)
    requires Assemble(sdk, r, epoch, now).Some?
    ensures r.frozenTransaction.Some? && sdk.bodies(r.frozenTransaction.value.bytes).Some?
  {
  }

  lemma SubmissionKeepsInv(sdk: Sdk, w: Session, sub: Submission)
    requires Inv(sdk, w)
    requires w.record.frozenTransaction.Some? && Backed(sdk, w.record.terms, w.record.frozenTransaction.value, sub)
    requires w.record.status == Executing && sub.epoch == Latest(w)
    requires w.history.submissions != [] ==> w.history.submissions[|w.history.submissions| - 1].epoch < Latest(w)
    ensures Inv(sdk, w.(history := w.history.(submissions := w.history.submissions + [sub])))
  {
    hide EntriesOk, AllBacked, EpochsIncrease, IsKeyEligible;
    AllBackedAndOne(sdk, w.record.terms, w.history.injected, w.history.submissions, sub);
  }

  lemma AllBackedAndOne(sdk: Sdk, terms: Terms, injected: seq<FrozenTx>, subs: seq<Submission>, sub: Submission)
    requires AllBacked(sdk, terms, injected, subs) && EpochsIncrease(subs)
    requires sub.epoch < |injected| && Backed(sdk, terms, injected[sub.epoch], sub)
    requires subs != [] ==> subs[|subs| - 1].epoch < sub.epoch
    ensures AllBacked(sdk, terms, injected, subs + [sub]) && EpochsIncrease(subs + [sub])
  {
    hide Backed;
  }

  lemma FinishKeepsInv(sdk: Sdk, w: Session, ok: bool, now: int)
    requires Inv(sdk, w)
    ensures Inv(sdk, FinishExecution(w, ok, now))
  {
    hide EntriesOk, AllBacked, EpochsIncrease, IsKeyEligible;
    if ok {
      Carries(sdk, w, FinishExecution(w, ok, now));
    } else {
      ExecutionErrorKeepsInv(sdk, w, now);
    }
  }

  lemma CleanupKeepsInv(sdk: Sdk, w: Session, now: int)
    requires Inv(sdk, w)
    ensures Inv(sdk, w.(record := Cleanup(w.record, now)))
  {
    hide EntriesOk, AllBacked, EpochsIncrease;
    Carries(sdk, w, w.(record := Cleanup(w.record, now)));
  }

  lemma AnnounceKeepsInv(sdk: Sdk, w: Session, now: int)
    requires Inv(sdk, w)
    ensures Inv(sdk, ReadSession(w.(record := Read(w.record, now).(scheduled := true)), now))
  {
    hide EntriesOk, AllBacked, EpochsIncrease;
    Carries(sdk, w, ReadSession(w.(record := Read(w.record, now).(scheduled := true)), now));
  }

  lemma CancelKeepsInv(sdk: Sdk, w: Session)
    requires Inv(sdk, w)
    ensures Inv(sdk, w.(record := UpdateStatus(w.record, Cancelled)))
  {
    hide EntriesOk, AllBacked, EpochsIncrease;
    Carries(sdk, w, w.(record := UpdateStatus(w.record, Cancelled)));
  }

  lemma SocketOrTimerChangeKeepsInv(sdk: Sdk, w: Session, sockets: map<ParticipantId, bool>, timers: map<nat, nat>)
    requires Inv(sdk, w)
    ensures Inv(sdk, w.(sockets := sockets, timers := timers))
  {
    hide EntriesOk, AllBacked, EpochsIncrease;
    Carries(sdk, w, w.(sockets := sockets, timers := timers));
  }

  /** Every step that can be taken keeps the invariant. */
  lemma StepKeepsInv(sdk: Sdk, w: Session, e: Event, now: int)
    requires Inv(sdk, w) && Enabled(w, e)
    ensures Inv(sdk, Step(sdk, w, e, now))
  {
    hide Inv, ReadSession, AddParticipant, CloseSocket, ParticipantReady, UpdateParticipantStatus, SubmitSignature;
    hide InjectTransaction, InjectDirectly, RejectTransaction, ResetTransaction, ExpireTransaction, BeginExecution;
    hide FinishExecution, Cleanup, Read, UpdateStatus;
    match e
    case ReadEvent => ReadKeepsInv(sdk, w, now);
    case Join(id) => JoinKeepsInv(sdk, w, id, now);
    case Reconnect(id) =>
      var sockets := w.sockets[id := true];
      SocketOrTimerChangeKeepsInv(sdk, w, sockets, w.timers);
      ReadKeepsInv(sdk, w.(sockets := sockets, timers := w.timers), now);
    case Close(id) => CloseKeepsInv(sdk, w, id, now);
    case Ready(id, publicKey) => ReadyKeepsInv(sdk, w, id, publicKey, now);
    case StatusUpdate(id, status) => StatusUpdateKeepsInv(sdk, w, id, status, now);
    case Submit(id, tuple) => SubmitKeepsInv(sdk, w, id, tuple, now);
    case Inject(tx, life, timerId) => InjectKeepsInv(sdk, w, tx, life, timerId, now);
    case InjectByManager(tx) => InjectDirectlyKeepsInv(sdk, w, tx, now);
    case Reject(id) => RejectKeepsInv(sdk, w, id, now);
    case Reset => ResetKeepsInv(sdk, w, now);
    case ExpiryTimerFires(timer) =>
      SocketOrTimerChangeKeepsInv(sdk, w, w.sockets, w.timers - {timer});
      ExpireKeepsInv(sdk, w.(sockets := w.sockets, timers := w.timers - {timer}), now);
    case Begin => BeginKeepsInv(sdk, w, now);
    case Finish(ok) => FinishKeepsInv(sdk, w, ok, now);
    case CleanupEvent => CleanupKeepsInv(sdk, w, now);
    case AnnounceSchedule => AnnounceKeepsInv(sdk, w, now);
    case Cancel => CancelKeepsInv(sdk, w);
    case SocketStopsBeingOpen(id) =>
      if id in w.sockets {
        SocketOrTimerChangeKeepsInv(sdk, w, w.sockets[id := false], w.timers);
      }
  }
}
