/** Runs that show how the session's promises fail where they do. */
module Witnesses {
  import opened Wrappers
  import opened Text
  import opened SignatureVerifier
  import opened KeyUtils
  import opened SessionProtocol
  import opened SessionInvariant
  import opened SessionRuns
  import opened SignerIdentity

  // ---- One signer, two signatures

  /** Every key parses, every signature verifies, every transaction has one body, every list fits. */
  const ACCEPTING := Sdk(key => true, (key, body, s) => true, bytes => Some([[0]]), (key, bodies, list) => true)

  function Signed(key: string): SignatureTuple {
    SignatureTuple(key, Some(["AA=="]), None)
  }

  /** The session holds an injected transaction and signatures for it under these keys. */
  predicate Collecting(w: Session, tx: FrozenTx, raw: string, keys: set<string>) {
    && w.record.terms == Terms(2, [raw], None)
    && w.record.status == (if keys == {} then TransactionReceived else Signing)
    && w.record.frozenTransaction == Some(tx) && w.record.transactionReceivedAt == Some(0) && !w.record.scheduled
    && "p" in w.record.participants
    && w.record.signatures.Keys == keys && (forall key :: key in keys ==> |w.record.signatures[key].signatures| == 1)
    && !w.executing && w.history.submissions == []
  }

  /** A new session that asks for two signatures and has one eligible key. */
  function ForTwo(raw: string): Session {
    Created(Terms(2, [raw], None), None, false, 1)
  }

  lemma JoinAndInject(tx: FrozenTx, raw: string) returns (run: seq<Timed>)
    ensures ValidRun(ACCEPTING, ForTwo(raw), run) && Collecting(Final(ACCEPTING, ForTwo(raw), run), tx, raw, {})
  {
    var join, inject := Timed(Join("p"), 0), Timed(Inject(tx, Unknown, None), 0);
    run := [join] + [inject];
    var w1 := Step(ACCEPTING, ForTwo(raw), join.event, 0);
    InjectedIntoWaiting(w1, tx, raw);
    assert Enabled(ForTwo(raw), join.event);
    assert Step(ACCEPTING, w1, inject.event, 0) == InjectTransaction(w1, tx, Unknown, None, 0);
    hide Step, Collecting;
    RunOneMore(ACCEPTING, ForTwo(raw), [], join);
    RunOneMore(ACCEPTING, ForTwo(raw), [join], inject);
    assert [] + [join] == [join];
  }

  lemma InjectedIntoWaiting(w: Session, tx: FrozenTx, raw: string)
    requires w.record.terms == Terms(2, [raw], None) && !w.record.scheduled && "p" in w.record.participants
    requires !w.executing && w.history.submissions == []
    ensures Collecting(InjectTransaction(w, tx, Unknown, None, 0), tx, raw, {})
  {
    hide ResetParticipant;
  }

  lemma TupleIsGood(r: Record, tx: FrozenTx, raw: string, key: string)
    requires r.frozenTransaction == Some(tx) && r.transactionReceivedAt == Some(0)
    requires r.terms.eligiblePublicKeys == [raw] && key !in r.signatures && key != "" && IsKeyEligible(key, [raw])
    ensures CheckTuple(ACCEPTING, r, Signed(key), 0) == None && SignatureList(Signed(key)) == Some(["AA=="])
  {
    hide IsKeyEligible;
    assert TupleVerifies(ACCEPTING, tx.bytes, Signed(key));
  }

  lemma SignOnce(w: Session, tx: FrozenTx, raw: string, keys: set<string>, key: string)
    requires Collecting(w, tx, raw, keys) && key !in keys && key != "" && IsKeyEligible(key, [raw])
    ensures Collecting(w.(record := SubmitSignature(ACCEPTING, w.record, "p", Signed(key), 0)), tx, raw, keys + {key})
  {
    hide IsKeyEligible, SignatureList, Signed, AddSignature, SubmitSignature, CheckTuple;
    TupleIsGood(w.record, tx, raw, key);
    var r := w.record.(status := Signing);
    assert keys == {} <==> w.record.signatures == map[];
    assert StartSigning(w.record) == r;
    GoodTupleIsStored(w.record, r, "p", Signed(key), ["AA=="]);
    SignedKey(key);
    StoredKeys(r, "p", key, ["AA=="]);
  }

  lemma GoodTupleIsStored(r0: Record, r: Record, id: ParticipantId, t: SignatureTuple, sigs: seq<string>)
    requires r0.terms.expiresAt.None? && r0.status in {TransactionReceived, Signing} && id in r0.participants
    requires CheckTuple(ACCEPTING, r0, t, 0) == None && SignatureList(t) == Some(sigs) && StartSigning(r0) == r
    requires id in r.participants && sigs != []
    ensures SubmitSignature(ACCEPTING, r0, id, t, 0) == AddSignature(r, id, t.publicKey, sigs, 0)
  {
    hide CheckTuple, SignatureList, AddSignature, StartSigning;
  }

  lemma StoredKeys(r: Record, id: ParticipantId, key: string, sigs: seq<string>)
    requires id in r.participants && sigs != []
    ensures var r' := AddSignature(r, id, key, sigs, 0);
            && r'.signatures.Keys == r.signatures.Keys + {key}
            && r'.signatures[key].signatures == sigs
            && (forall other :: other in r.signatures && other != key ==> r'.signatures[other] == r.signatures[other])
            && id in r'.participants
            && r' == r.(signatures := r'.signatures, participants := r'.participants, stats := r'.stats)
  {
  }

  lemma SignedKey(key: string)
    ensures Signed(key).publicKey == key
  {
  }

  /** One more accepted submission of the run. */
  lemma OneMoreSigns(w0: Session, run: seq<Timed>, tx: FrozenTx, raw: string, keys: set<string>, key: string) returns (longer: seq<Timed>)
    requires ValidRun(ACCEPTING, w0, run) && Collecting(Final(ACCEPTING, w0, run), tx, raw, keys)
    requires key !in keys && key != "" && IsKeyEligible(key, [raw])
    ensures ValidRun(ACCEPTING, w0, longer) && Collecting(Final(ACCEPTING, w0, longer), tx, raw, keys + {key})
  {
    hide Collecting, SubmitSignature, Final, ValidRun, IsKeyEligible;
    var w := Final(ACCEPTING, w0, run);
    var last := Timed(Submit("p", Signed(key)), 0);
    longer := run + [last];
    NothingExecutes(w, tx, raw, keys);
    SignOnce(w, tx, raw, keys, key);
    RunOneMore(ACCEPTING, w0, run, last);
  }

  lemma SubmitAll(w: Session, tx: FrozenTx, raw: string, keys: set<string>)
    requires Collecting(w, tx, raw, keys) && |keys| >= 2
    ensures var subs := Step(ACCEPTING, w, Begin, 0).history.submissions;
            |subs| == 1 && subs[0].attached.Keys == keys
  {
  }

  /** Two strings for one eligible key, and a run in which its holder signs under both and the
      transaction is submitted. */
  lemma SignTwiceAndSubmit(tx: FrozenTx, raw: string, one: string, other: string) returns (run: seq<Timed>)
    requires one != other && one != "" && other != "" && IsKeyEligible(one, [raw]) && IsKeyEligible(other, [raw])
    ensures ValidRun(ACCEPTING, ForTwo(raw), run)
    ensures var subs := Final(ACCEPTING, ForTwo(raw), run).history.submissions;
            |subs| == 1 && subs[0].attached.Keys == {one, other}
  {
    hide Step, Final, ValidRun, Collecting, IsKeyEligible, ForTwo;
    var w0 := ForTwo(raw);
    run := JoinAndInject(tx, raw);
    run := OneMoreSigns(w0, run, tx, raw, {}, one);
    run := OneMoreSigns(w0, run, tx, raw, {} + {one}, other);
    run := ThenSubmit(w0, run, tx, raw, {} + {one} + {other});
    assert {} + {one} + {other} == {one, other};
  }

  lemma ThenSubmit(w0: Session, run: seq<Timed>, tx: FrozenTx, raw: string, keys: set<string>) returns (longer: seq<Timed>)
    requires ValidRun(ACCEPTING, w0, run) && Collecting(Final(ACCEPTING, w0, run), tx, raw, keys) && |keys| >= 2
    ensures ValidRun(ACCEPTING, w0, longer)
    ensures var subs := Final(ACCEPTING, w0, longer).history.submissions;
            |subs| == 1 && subs[0].attached.Keys == keys
  {
    hide Step, Final, ValidRun, Collecting;
    var w := Final(ACCEPTING, w0, run);
    NothingExecutes(w, tx, raw, keys);
    SubmitAll(w, tx, raw, keys);
    RunOneMore(ACCEPTING, w0, run, Timed(Begin, 0));
    longer := run + [Timed(Begin, 0)];
  }

  /** For every raw key there is a run in which its one holder, having signed as `raw` and as `0x` + `raw`,
      meets a threshold of two alone, and the transaction is submitted. */
  lemma OneSignerMeetsThresholdTwo(tx: FrozenTx, raw: string) returns (run: seq<Timed>)
    requires IsRawHex(raw) && NotDer(raw)
    ensures ValidRun(ACCEPTING, ForTwo(raw), run)
    ensures var subs := Final(ACCEPTING, ForTwo(raw), run).history.submissions;
            |subs| == 1 && subs[0].attached.Keys == {raw, "0x" + raw} && Signers(subs[0].attached.Keys) == {raw}
  {
    hide Final, ValidRun, IsKeyEligible, ForTwo, IsRawHex, NotDer, ToRawPublicKeyHex;
    BothSpell(raw);
    run := SignTwiceAndSubmit(tx, raw, raw, "0x" + raw);
  }

  lemma NothingExecutes(w: Session, tx: FrozenTx, raw: string, keys: set<string>)
    requires Collecting(w, tx, raw, keys)
    ensures !w.executing
  {
  }

  lemma BothSpell(raw: string)
    requires IsRawHex(raw) && NotDer(raw)
    ensures raw != "" && raw != "0x" + raw
    ensures ToRawPublicKeyHex(raw) == raw && ToRawPublicKeyHex("0x" + raw) == raw
    ensures IsKeyEligible(raw, [raw]) && IsKeyEligible("0x" + raw, [raw])
  {
    assert "" + raw + "" == raw && "" + ("0x" + raw) + "" == "0x" + raw;
    assert "" + raw == raw && "0x" + "" + raw == "0x" + raw;
    assert Capitalises(raw, raw) && Capitalises("0x" + raw, "0x" + raw) && IsBlank("");
    assert Spells(raw, raw, "");
    assert Spells("0x" + raw, raw, "");
    CanonicalOfSpelling(raw, raw, "");
    CanonicalOfSpelling("0x" + raw, raw, "");
    assert [raw][0] == raw;
  }

  // ---- No signer, no signature

  /** Nothing is submitted without a signature in this run of a new session. */
  predicate AllSigned(sdk: Sdk, terms: Terms, run: seq<Timed>) {
    var w0 := Created(terms, None, false, 1);
    ValidRun(sdk, w0, run) ==>
      forall i :: 0 <= i < |Final(sdk, w0, run).history.submissions| ==>
        Final(sdk, w0, run).history.submissions[i].attached != map[]
  }

  /** With a threshold that is not positive, which a negative one given for the session leads to, a
      transaction is submitted as it was injected, without any signature. */
  lemma UnsignedIsSubmitted(sdk: Sdk, terms: Terms, tx: FrozenTx) returns (run: seq<Timed>)
    requires terms.threshold <= 0 && sdk.bodies(tx.bytes).Some?
    ensures ValidRun(sdk, Created(terms, None, false, 1), run)
    ensures var subs := Final(sdk, Created(terms, None, false, 1), run).history.submissions;
            |subs| == 1 && subs[0].attached == map[] && subs[0].bodies == sdk.bodies(tx.bytes).value
  {
    var now := if terms.expiresAt.Some? then terms.expiresAt.value else 0;
    var w0 := Created(terms, None, false, 1);
    var inject, begin := Timed(Inject(tx, Unknown, None), now), Timed(Begin, now);
    run := [] + [inject] + [begin];
    InjectedWithoutSignatures(sdk, w0, tx, now);
    var w1 := Step(sdk, w0, inject.event, now);
    assert Enabled(w0, inject.event) && Enabled(w1, Begin);
    BeginsUnsigned(sdk, w1, tx, now);
    hide Step, Created;
    RunOneMore(sdk, w0, [], inject);
    RunOneMore(sdk, w0, [] + [inject], begin);
  }

  lemma InjectedWithoutSignatures(sdk: Sdk, w: Session, tx: FrozenTx, now: int)
    requires !PastExpiry(w.record, now)
    ensures var w' := Step(sdk, w, Inject(tx, Unknown, None), now);
            && w'.record.status == TransactionReceived && w'.record.frozenTransaction == Some(tx)
            && w'.record.signatures == map[] && w'.record.terms == w.record.terms
            && w'.executing == w.executing && w'.history.submissions == w.history.submissions
  {
    hide ResetParticipant;
  }

  lemma BeginsUnsigned(sdk: Sdk, w: Session, tx: FrozenTx, now: int)
    requires w.record.terms.threshold <= 0 && sdk.bodies(tx.bytes).Some? && !PastExpiry(w.record, now)
    requires w.record.status == TransactionReceived && w.record.frozenTransaction == Some(tx) && w.record.signatures == map[]
    ensures var subs := Step(sdk, w, Begin, now).history.submissions;
            && |subs| == |w.history.submissions| + 1
            && subs[|subs| - 1].attached == map[] && subs[|subs| - 1].bodies == sdk.bodies(tx.bytes).value
  {
  }

  /** A session never submits an unsigned transaction, in any run, exactly if its threshold is positive. */
  lemma UnsignedIsSubmittedExactly(sdk: Sdk, terms: Terms, tx: FrozenTx)
    requires sdk.bodies(tx.bytes).Some?
    ensures (forall run :: AllSigned(sdk, terms, run)) <==> terms.threshold >= 1
  {
    hide AllSigned;
    if terms.threshold >= 1 {
      forall run ensures AllSigned(sdk, terms, run) {
        PositiveThresholdIsSigned(sdk, terms, run);
      }
    } else {
      var run := UnsignedIsSubmitted(sdk, terms, tx);
      UnsignedShows(sdk, terms, run);
    }
  }

  lemma UnsignedShows(sdk: Sdk, terms: Terms, run: seq<Timed>)
    requires ValidRun(sdk, Created(terms, None, false, 1), run)
    requires var subs := Final(sdk, Created(terms, None, false, 1), run).history.submissions;
             |subs| == 1 && subs[0].attached == map[]
    ensures !AllSigned(sdk, terms, run)
  {
    hide ValidRun, Final, Created;
  }

  lemma PositiveThresholdIsSigned(sdk: Sdk, terms: Terms, run: seq<Timed>)
    requires terms.threshold >= 1
    ensures AllSigned(sdk, terms, run)
  {
    hide ValidRun, Final, Step, IsKeyEligible;
    var w0 := Created(terms, None, false, 1);
    if ValidRun(sdk, w0, run) {
      forall i | 0 <= i < |Final(sdk, w0, run).history.submissions|
        ensures Final(sdk, w0, run).history.submissions[i].attached != map[]
      {
        EverySubmissionIsBacked(sdk, terms, None, false, 1, run, i);
      }
    }
  }

  // ---- A ready participant without the transaction

  /** A session whose one participant is `p`, before any transaction or with one injected at time 0. */
  function Solo(p: Participant, ready: nat, open: bool, tx: Option<FrozenTx>, delivered: set<ParticipantId>): Session {
    Session(
      Record(Terms(1, [], None), if tx.Some? then TransactionReceived else Waiting, tx, false,
             if tx.Some? then Some(0) else None, None, map["p" := p], map[], Stats(1, ready, 0)),
      false, map["p" := open], map[], 1,
      History(if tx.Some? then [tx.value] else [], if tx.Some? then Some(0) else None, [], delivered))
  }

  const CONNECTED := Participant("connected", false, None, None)
  const READY := Participant("ready", true, None, None)
  const REVIEWING := Participant("reviewing", true, None, None)

  function ForOne(): Session {
    Created(Terms(1, [], None), None, false, 1)
  }

  lemma SoloJoins(sdk: Sdk)
    ensures Step(sdk, ForOne(), Join("p"), 0) == Solo(CONNECTED, 0, true, None, {})
  {
  }

  lemma SoloIsReady(sdk: Sdk)
    ensures Step(sdk, Solo(CONNECTED, 0, true, None, {}), Ready("p", None), 0) == Solo(READY, 1, true, None, {})
  {
  }

  lemma SoloUpdates(sdk: Sdk, p: Participant, status: string, ready: nat, tx: Option<FrozenTx>, delivered: set<ParticipantId>)
    ensures Step(sdk, Solo(p, ready, true, tx, delivered), StatusUpdate("p", status), 0)
              == Solo(p.(status := status), ready, true, tx, delivered)
  {
  }

  lemma SoloSocket(sdk: Sdk, p: Participant, ready: nat, open: bool, tx: Option<FrozenTx>, delivered: set<ParticipantId>)
    ensures Step(sdk, Solo(p, ready, open, tx, delivered), SocketStopsBeingOpen("p"), 0) == Solo(p, ready, false, tx, delivered)
    ensures Step(sdk, Solo(p, ready, open, tx, delivered), Reconnect("p"), 0) == Solo(p, ready, true, tx, delivered)
  {
  }

  lemma SoloGetsTransaction(sdk: Sdk, p: Participant, ready: nat, open: bool, tx: FrozenTx)
    requires p.status != "signed" && p.status != "rejected"
    ensures !open ==> Step(sdk, Solo(p, ready, open, None, {}), Inject(tx, Unknown, None), 0) == Solo(p, ready, open, Some(tx), {})
    ensures Step(sdk, Solo(p, ready, open, None, {}), InjectByManager(tx), 0) == Solo(p, ready, open, Some(tx), {})
  {
    var w := Solo(p, ready, open, None, {});
    assert ClearTransactionState(w.record).participants == map["p" := p];
  }

  lemma SoloAwaits(tx: FrozenTx)
    ensures !NobodyMisses(Solo(READY, 1, true, Some(tx), {}))
    ensures NobodyMisses(Solo(READY, 1, true, None, {}))
    ensures NobodyMisses(Solo(READY, 1, false, Some(tx), {}))
    ensures NobodyMisses(Solo(REVIEWING, 1, true, Some(tx), {}))
  {
    assert AwaitsTransaction(Solo(READY, 1, true, Some(tx), {}), "p");
  }

  lemma SoloBecomesReady(sdk: Sdk) returns (run: seq<Timed>)
    ensures ValidRun(sdk, ForOne(), run) && Final(sdk, ForOne(), run) == Solo(READY, 1, true, None, {})
  {
    SoloJoins(sdk);
    SoloIsReady(sdk);
    assert Enabled(ForOne(), Join("p")) && Enabled(Solo(CONNECTED, 0, true, None, {}), Ready("p", None));
    hide Step, Solo, ForOne, Enabled;
    RunOneMore(sdk, ForOne(), [], Timed(Join("p"), 0));
    RunOneMore(sdk, ForOne(), [] + [Timed(Join("p"), 0)], Timed(Ready("p", None), 0));
    run := [] + [Timed(Join("p"), 0)] + [Timed(Ready("p", None), 0)];
  }

  lemma SoloNext(sdk: Sdk, w0: Session, run: seq<Timed>, e: Event) returns (longer: seq<Timed>)
    requires ValidRun(sdk, w0, run) && Enabled(Final(sdk, w0, run), e)
    ensures longer == run + [Timed(e, 0)] && ValidRun(sdk, w0, longer)
    ensures Final(sdk, w0, longer) == Step(sdk, Final(sdk, w0, run), e, 0)
  {
    hide Step, Enabled, Final, ValidRun;
    RunOneMore(sdk, w0, run, Timed(e, 0));
    longer := run + [Timed(e, 0)];
  }

  /** Each of the three steps that leave someone out occurs: for each there is a run after which nobody
      misses the transaction in flight, and which that step takes to a state where the one ready
      participant, with an open socket, has not been sent it. */
  lemma EachWayLeavesSomeoneOut(sdk: Sdk, tx: FrozenTx) returns (byManager: seq<Timed>, byStatus: seq<Timed>, byReconnect: seq<Timed>)
    ensures Misses(sdk, byManager, InjectByManager(tx))
    ensures Misses(sdk, byStatus, StatusUpdate("p", "ready"))
    ensures Misses(sdk, byReconnect, Reconnect("p"))
  {
    hide Step, Solo, ForOne, Final, ValidRun, NobodyMisses;
    byManager := SoloBecomesReady(sdk);
    byStatus := ReviewsAway(sdk, tx);
    byReconnect := DropsOut(sdk, tx);
    SoloGetsTransaction(sdk, READY, 1, true, tx);
    SoloUpdates(sdk, REVIEWING, "ready", 1, Some(tx), {});
    SoloSocket(sdk, READY, 1, false, Some(tx), {});
    SoloAwaits(tx);
  }

  /** After the run nobody misses the transaction, and after one more step somebody does. */
  predicate Misses(sdk: Sdk, run: seq<Timed>, e: Event) {
    var w := Final(sdk, ForOne(), run);
    ValidRun(sdk, ForOne(), run) && Enabled(w, e) && NobodyMisses(w) && !NobodyMisses(Step(sdk, w, e, 0))
  }

  /** Ready, but reviewing and without an open socket when the transaction comes, then back. */
  lemma ReviewsAway(sdk: Sdk, tx: FrozenTx) returns (run: seq<Timed>)
    ensures ValidRun(sdk, ForOne(), run) && Final(sdk, ForOne(), run) == Solo(REVIEWING, 1, true, Some(tx), {})
  {
    run := SoloBecomesReady(sdk);
    SoloUpdates(sdk, READY, "reviewing", 1, None, {});
    SoloSocket(sdk, REVIEWING, 1, true, None, {});
    SoloGetsTransaction(sdk, REVIEWING, 1, false, tx);
    SoloSocket(sdk, REVIEWING, 1, false, Some(tx), {});
    hide Step, Solo, ForOne, Final, ValidRun;
    run := SoloNext(sdk, ForOne(), run, StatusUpdate("p", "reviewing"));
    run := SoloNext(sdk, ForOne(), run, SocketStopsBeingOpen("p"));
    run := SoloNext(sdk, ForOne(), run, Inject(tx, Unknown, None));
    run := SoloNext(sdk, ForOne(), run, Reconnect("p"));
  }

  /** Ready, but without an open socket when the transaction comes. */
  lemma DropsOut(sdk: Sdk, tx: FrozenTx) returns (run: seq<Timed>)
    ensures ValidRun(sdk, ForOne(), run) && Final(sdk, ForOne(), run) == Solo(READY, 1, false, Some(tx), {})
  {
    run := SoloBecomesReady(sdk);
    SoloSocket(sdk, READY, 1, true, None, {});
    SoloGetsTransaction(sdk, READY, 1, false, tx);
    hide Step, Solo, ForOne, Final, ValidRun;
    run := SoloNext(sdk, ForOne(), run, SocketStopsBeingOpen("p"));
    run := SoloNext(sdk, ForOne(), run, Inject(tx, Unknown, None));
  }
}
