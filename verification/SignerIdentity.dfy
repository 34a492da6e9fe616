/** Who stands behind the stored signatures: the session counts key strings as they were sent, and one
    key has several spellings. */
module SignerIdentity {
  import opened Wrappers
  import opened SignatureVerifier
  import opened KeyUtils
  import opened SessionProtocol
  import opened SessionInvariant
  import opened SessionRuns

  /** The keys behind these strings. */
  function Signers(keys: set<string>): set<string> {
    set key | key in keys :: ToRawPublicKeyHex(key)
  }

  predicate DistinctSigners(keys: set<string>) {
    |Signers(keys)| == |keys|
  }

  lemma {:induction false} AtMostAllSigners(keys: set<string>)
    ensures |Signers(keys)| <= |keys|
  {
    hide ToRawPublicKeyHex;
    if keys != {} {
      var key :| key in keys;
      AtMostAllSigners(keys - {key});
      assert Signers(keys) == Signers(keys - {key}) + {ToRawPublicKeyHex(key)};
    }
  }

  /** One more string is one more signer exactly when it does not spell a key that is there already. */
  lemma OneMoreKey(keys: set<string>, key: string)
    requires key !in keys
    ensures DistinctSigners(keys + {key}) <==> DistinctSigners(keys) && ToRawPublicKeyHex(key) !in Signers(keys)
  {
    hide ToRawPublicKeyHex;
    AtMostAllSigners(keys);
    assert Signers(keys + {key}) == Signers(keys) + {ToRawPublicKeyHex(key)};
  }

  /** The step is a submission under a string that spells a stored key. This can be told before it. */
  predicate Respells(w: Session, e: Event) {
    e.Submit? && ToRawPublicKeyHex(e.tuple.publicKey) in Signers(w.record.signatures.Keys)
  }

  /** Whether, since the last clearing step, some accepted submission respelled a stored key, starting
      from `before`. */
  function RespelledSinceClear(sdk: Sdk, w: Session, run: seq<Timed>, before: bool): bool
    decreases |run|
  {
    if run == [] then before else
    var e, now := run[0].event, run[0].now;
    RespelledSinceClear(sdk, Step(sdk, w, e, now), run[1..],
      !Clears(w, e, now) && (before || (Accepts(sdk, w, e, now) && Respells(w, e))))
  }

  lemma StepOnSigners(sdk: Sdk, w: Session, e: Event, now: int)
    ensures DistinctSigners(Step(sdk, w, e, now).record.signatures.Keys) <==>
            Clears(w, e, now) ||
            (DistinctSigners(w.record.signatures.Keys) && !(Accepts(sdk, w, e, now) && Respells(w, e)))
  {
    hide Step, Clears, ToRawPublicKeyHex, SubmitResult;
    StepOnSignatures(sdk, w, e, now);
    var before, after := w.record.signatures, Step(sdk, w, e, now).record.signatures;
    if Clears(w, e, now) {
      assert after.Keys == {} && Signers({}) == {};
    } else if Accepts(sdk, w, e, now) {
      assert after.Keys == before.Keys + {e.tuple.publicKey};
      OneMoreKey(before.Keys, e.tuple.publicKey);
    }
  }

  /** The signers behind the stored signatures are as many as the entries if and only if, since the last
      clearing step, no accepted submission came under a string that spelled a key stored by then. */
  lemma {:induction false} SignersAreDistinctExactly(sdk: Sdk, w: Session, run: seq<Timed>)
    ensures DistinctSigners(Final(sdk, w, run).record.signatures.Keys) <==>
            !RespelledSinceClear(sdk, w, run, !DistinctSigners(w.record.signatures.Keys))
    decreases |run|
  {
    hide Step, Clears, Accepts, Respells, DistinctSigners;
    if run != [] {
      StepOnSigners(sdk, w, run[0].event, run[0].now);
      SignersAreDistinctExactly(sdk, Step(sdk, w, run[0].event, run[0].now), run[1..]);
    }
  }

  // ---- The same of what is submitted

  lemma BeginSubmits(sdk: Sdk, w: Session, now: int)
    ensures var w' := BeginExecution(sdk, w, now);
            var r := UpdateStatus(Read(w.record, now), Executing);
            w'.history.submissions != w.history.submissions ==>
              && IsThresholdMet(r)
              && Assemble(sdk, r, Latest(w), now).Some?
              && w'.history.submissions == w.history.submissions + [Assemble(sdk, r, Latest(w), now).value]
  {
    hide Assemble;
  }

  lemma InjectingSubmitsNothing(w: Session, tx: FrozenTx, life: Lifetime, timerId: Option<nat>, now: int)
    ensures InjectTransaction(w, tx, life, timerId, now).history.submissions == w.history.submissions
    ensures InjectDirectly(w, tx, now).history.submissions == w.history.submissions
  {
    hide ClearTransactionState, TimeUntilExpiry, Read;
  }

  lemma DroppingSubmitsNothing(w: Session, id: ParticipantId, now: int)
    ensures RejectTransaction(w, id, now).history == w.history
    ensures ResetTransaction(w, now).history == w.history
    ensures ExpireTransaction(w, now).history == w.history
  {
    hide ClearTransactionState, UpdateParticipantStatus, Read;
  }

  lemma OtherStepsSubmitNothing(sdk: Sdk, w: Session, e: Event, now: int)
    requires !e.Begin?
    ensures Step(sdk, w, e, now).history.submissions == w.history.submissions
  {
    hide SubmitSignature, InjectTransaction, InjectDirectly, RejectTransaction, ResetTransaction, ExpireTransaction;
    hide SetParticipantReady, RemoveParticipant, UpdateParticipantStatus, AddParticipant, Read, Cleanup, ExecutionError;
    match e
    case Inject(tx, life, timerId) => InjectingSubmitsNothing(w, tx, life, timerId, now);
    case InjectByManager(tx) => InjectingSubmitsNothing(w, tx, Unknown, None, now);
    case Reject(id) => DroppingSubmitsNothing(w, id, now);
    case Reset => DroppingSubmitsNothing(w, "", now);
    case ExpiryTimerFires(timer) => DroppingSubmitsNothing(w.(timers := w.timers - {timer}), "", now);
    case _ =>
  }

  /** Every submission of a run was made by one of its executions, of the record that one found. */
  lemma {:induction false} SubmissionBegins(sdk: Sdk, w: Session, run: seq<Timed>, i: nat) returns (n: nat)
    requires |w.history.submissions| <= i < |Final(sdk, w, run).history.submissions|
    ensures n < |run| && run[n].event == Begin
    ensures var found := Final(sdk, w, run[..n]);
            var r := UpdateStatus(Read(found.record, run[n].now), Executing);
            && |found.history.submissions| == i && IsThresholdMet(r)
            && Assemble(sdk, r, Latest(found), run[n].now) == Some(Final(sdk, w, run).history.submissions[i])
    decreases |run|
  {
    hide Step, Assemble, IsThresholdMet, Read, UpdateStatus;
    var e, now := run[0].event, run[0].now;
    var w' := Step(sdk, w, e, now);
    if |w'.history.submissions| <= i {
      n := SubmissionBegins(sdk, w', run[1..], i);
      n := n + 1;
      assert run[..n][1..] == run[1..][..n - 1];
    } else {
      n := 0;
      assert run[..0] == [];
      RunExtendsHistory(sdk, w', run[1..]);
      if e.Begin? {
        StepIsBegin(sdk, w, now);
        BeginSubmits(sdk, w, now);
      } else {
        OtherStepsSubmitNothing(sdk, w, e, now);
      }
    }
  }

  lemma StepIsBegin(sdk: Sdk, w: Session, now: int)
    ensures Step(sdk, w, Begin, now) == BeginExecution(sdk, w, now)
  {
  }

  lemma AssembledKeys(sdk: Sdk, r: Record, epoch: nat, now: int)
    requires Assemble(sdk, r, epoch, now).Some?
    ensures Assemble(sdk, r, epoch, now).value.attached.Keys == r.signatures.Keys
  {
  }

  /** In every run, the keys a submission carries belong to as many signers if and only if, between the
      last clearing step and the execution that made it, no accepted submission respelled a stored key. */
  lemma SubmittedSignersAreDistinctExactly(sdk: Sdk, terms: Terms, tx: Option<FrozenTx>, scheduled: bool, nextTimerId: nat,
                                           run: seq<Timed>, i: nat) returns (n: nat)
    requires i < |Final(sdk, Created(terms, tx, scheduled, nextTimerId), run).history.submissions|
    ensures n < |run| && run[n].event == Begin
    ensures var w0 := Created(terms, tx, scheduled, nextTimerId);
            && |Final(sdk, w0, run[..n]).history.submissions| == i
            && (DistinctSigners(Final(sdk, w0, run).history.submissions[i].attached.Keys) <==>
                  !RespelledSinceClear(sdk, w0, run[..n], false))
  {
    hide Step, Final, Assemble, DistinctSigners, RespelledSinceClear;
    var w0 := Created(terms, tx, scheduled, nextTimerId);
    n := SubmissionBegins(sdk, w0, run, i);
    var found := Final(sdk, w0, run[..n]);
    AssembledKeys(sdk, UpdateStatus(Read(found.record, run[n].now), Executing), Latest(found), run[n].now);
    SignersAreDistinctExactly(sdk, w0, run[..n]);
    NobodyIsDistinct();
    assert w0.record.signatures.Keys == {};
  }

  lemma NobodyIsDistinct()
    ensures DistinctSigners({})
  {
    assert Signers({}) == {};
  }

  /** In every run, each list a submission carries has exactly as many signatures as there are bodies sent
      if and only if the execution was downgraded to one body or no signer sent more than one signature
      per body. */
  lemma SubmittedCountsMatchExactly(sdk: Sdk, terms: Terms, tx: Option<FrozenTx>, scheduled: bool, nextTimerId: nat,
                                    run: seq<Timed>, i: nat) returns (n: nat)
    requires ValidRun(sdk, Created(terms, tx, scheduled, nextTimerId), run)
    requires i < |Final(sdk, Created(terms, tx, scheduled, nextTimerId), run).history.submissions|
    ensures n < |run| && run[n].event == Begin
    ensures var w0 := Created(terms, tx, scheduled, nextTimerId);
            var found, sub := Final(sdk, w0, run[..n]), Final(sdk, w0, run).history.submissions[i];
            && |found.history.submissions| == i
            && found.record.frozenTransaction.Some? && sdk.bodies(found.record.frozenTransaction.value.bytes).Some?
            && (var all := sdk.bodies(found.record.frozenTransaction.value.bytes).value;
                (forall key :: key in sub.attached ==> |sub.attached[key]| == |sub.bodies|) <==>
                  || Downgrades(all, found.record.signatures)
                  || forall key :: key in found.record.signatures ==> |found.record.signatures[key].signatures| <= |all|)
  {
    hide Step, Final, ValidRun, Assemble, Downgrades, Inv;
    var w0 := Created(terms, tx, scheduled, nextTimerId);
    n := SubmissionBegins(sdk, w0, run, i);
    var found := Final(sdk, w0, run[..n]);
    CreatedSatisfiesInv(sdk, terms, tx, scheduled, nextTimerId);
    PrefixIsValid(sdk, w0, run, n);
    RunKeepsInv(sdk, w0, run[..n]);
    StoredListsAreNotEmpty(sdk, found);
    AssembledIsOfTransaction(sdk, UpdateStatus(Read(found.record, run[n].now), Executing), Latest(found), run[n].now);
    AttachedCountsMatch(sdk, UpdateStatus(Read(found.record, run[n].now), Executing), Latest(found), run[n].now,
                        Final(sdk, w0, run).history.submissions[i]);
  }
}
