/** The session manager (server/SigningSessionManager.js): submitting a signature and executing a
    transaction, on the live objects of the store, each proved against its transition function. The
    promise chain that lets one submission or execution in at a time is in SignatureLocks. */
module SigningSessionManager {
  import opened Wrappers
  import opened Base64
  import opened SignatureVerifier
  import opened KeyUtils
  import opened SessionStore
  import P = SessionProtocol

  /** The SDK's transaction as the executor uses it: the signed bodies it will send and the
      signatures attached to them. */
  class SdkTransaction {
    var bodies: seq<Bytes>
    var attached: map<string, seq<Bytes>>

    constructor (bodies: seq<Bytes>)
      ensures this.bodies == bodies && attached == map[]
    {
      this.bodies, attached := bodies, map[];
    }

    /** Keep the first body only. */
    method TrimToFirst()
      requires bodies != []
      modifies this`bodies
      ensures bodies == old(bodies)[..1]
    {
      bodies := [bodies[0]];
    }

    /** False where the SDK throws: the key does not parse, or the list does not fit the bodies. */
    method AddSignature(sdk: Sdk, key: string, list: seq<Bytes>) returns (ok: bool)
      modifies this`attached
      ensures ok <==> sdk.parsesKey(key) && sdk.attaches(key, bodies, list)
      ensures attached == if ok then old(attached)[key := list] else old(attached)
    {
      ok := sdk.parsesKey(key) && sdk.attaches(key, bodies, list);
      if ok { attached := attached[key := list]; }
    }
  }

  /** Some signer's list is shorter than `bodyCount`. */
  method SomeListIsShort(signatures: map<string, P.SignatureEntry>, bodyCount: nat) returns (short: bool)
    ensures short <==> exists key :: key in signatures && |signatures[key].signatures| < bodyCount
  {
    short := false;
    var todo := signatures.Keys;
    while todo != {}
      invariant todo <= signatures.Keys
      invariant short <==> exists key :: key in signatures && key !in todo && |signatures[key].signatures| < bodyCount
      decreases |todo|
    {
      var key :| key in todo;
      todo := todo - {key};
      if |signatures[key].signatures| < bodyCount { short := true; }
    }
  }

  /** Decode what one signer attaches: the first signature after a downgrade, all of them otherwise. */
  method DecodeList(downgrade: bool, fullList: seq<string>) returns (list: seq<Bytes>)
    requires fullList != []
    ensures list == P.AttachedList(downgrade, fullList)
  {
    var sigList := if downgrade then [fullList[0]] else fullList;
    list := [];
    var i := 0;
    while i < |sigList|
      invariant 0 <= i <= |sigList| == |sigList|
      invariant |list| == i && forall k :: 0 <= k < i ==> list[k] == DecodeSignature(sigList[k])
    {
      list := list + [DecodeSignature(sigList[i])];
      i := i + 1;
    }
  }

  /** What is attached once the signers in `done` have been. */
  ghost function AttachedBy(downgrade: bool, signatures: map<string, P.SignatureEntry>, done: set<string>): map<string, seq<Bytes>> {
    map key | key in signatures && key in done :: P.AttachedList(downgrade, signatures[key].signatures)
  }

  lemma AttachedByOneMore(downgrade: bool, signatures: map<string, P.SignatureEntry>, todo: set<string>, key: string)
    requires key in signatures && key in todo
    ensures AttachedBy(downgrade, signatures, signatures.Keys - (todo - {key}))
              == AttachedBy(downgrade, signatures, signatures.Keys - todo)[key := P.AttachedList(downgrade, signatures[key].signatures)]
  {
  }

  lemma AttachedByAllOrNone(downgrade: bool, signatures: map<string, P.SignatureEntry>)
    ensures AttachedBy(downgrade, signatures, signatures.Keys - {})
              == map key | key in signatures :: P.AttachedList(downgrade, signatures[key].signatures)
    ensures AttachedBy(downgrade, signatures, signatures.Keys - signatures.Keys) == map[]
  {
  }

  /** The key parses and its list fits the bodies. */
  predicate Attaches(sdk: Sdk, bodies: seq<Bytes>, downgrade: bool, signatures: map<string, P.SignatureEntry>, key: string)
    requires key in signatures
  {
    sdk.parsesKey(key) && sdk.attaches(key, bodies, P.AttachedList(downgrade, signatures[key].signatures))
  }

  lemma AssembleByParts(sdk: Sdk, r: P.Record, epoch: nat, now: int, sent: seq<Bytes>)
    requires r.frozenTransaction.Some? && sdk.bodies(r.frozenTransaction.value.bytes).Some?
    requires var bodies := sdk.bodies(r.frozenTransaction.value.bytes).value;
             sent == if P.Downgrades(bodies, r.signatures) then bodies[..1] else bodies
    ensures var downgrade := P.Downgrades(sdk.bodies(r.frozenTransaction.value.bytes).value, r.signatures);
            P.Assemble(sdk, r, epoch, now) ==
            if forall key :: key in r.signatures ==> Attaches(sdk, sent, downgrade, r.signatures, key)
            then Some(P.Submission(epoch, sent, map key | key in r.signatures :: P.AttachedList(downgrade, r.signatures[key].signatures), now))
            else None
  {
    hide P.Downgrades, P.AttachedList;
  }

  /** Attach every signer's list; false where one of them makes the SDK throw. */
  method AttachAll(sdk: Sdk, signedTx: SdkTransaction, downgrade: bool, signatures: map<string, P.SignatureEntry>)
    returns (ok: bool)
    requires signedTx.attached == map[]
    requires P.ListsNotEmpty(signatures)
    modifies signedTx`attached
    ensures ok <==> forall key :: key in signatures ==> Attaches(sdk, signedTx.bodies, downgrade, signatures, key)
    ensures ok ==> signedTx.attached ==
                   map key | key in signatures :: P.AttachedList(downgrade, signatures[key].signatures)
  {
    hide P.AttachedList, AttachedBy;
    AttachedByAllOrNone(downgrade, signatures);
    var todo := signatures.Keys;
    while todo != {}
      invariant todo <= signatures.Keys
      invariant signedTx.attached == AttachedBy(downgrade, signatures, signatures.Keys - todo)
      invariant forall key :: key in signatures && key !in todo ==> Attaches(sdk, signedTx.bodies, downgrade, signatures, key)
      decreases |todo|
    {
      var key :| key in todo;
      var list := DecodeList(downgrade, signatures[key].signatures);
      ok := signedTx.AddSignature(sdk, key, list);
      if !ok { return; }
      AttachedByOneMore(downgrade, signatures, todo, key);
      todo := todo - {key};
    }
    ok := true;
  }

  /** The form a tuple is stored and verified in. */
  function Canonical(t: SignatureTuple): (r: SignatureTuple)
    requires SignatureList(t).Some?
    ensures r.publicKey == t.publicKey && SignatureList(r) == SignatureList(t)
  {
    SignatureTuple(t.publicKey, SignatureList(t), Some(SignatureList(t).value[0]))
  }

  lemma CanonicalVerifies(sdk: Sdk, bytes: Bytes, t: SignatureTuple)
    requires SignatureList(t).Some?
    ensures TupleVerifies(sdk, bytes, Canonical(t)) <==> TupleVerifies(sdk, bytes, t)
  {
  }

  /** A transaction handed to the manager, which it only takes frozen. */
  datatype OfferedTx = OfferedTx(tx: P.FrozenTx, isFrozen: bool)

  function TxOf(offered: Option<OfferedTx>): Option<P.FrozenTx> {
    match offered { case Some(o) => Some(o.tx) case None => None }
  }

  /** What a session is asked for with. A threshold of zero counts as none given; for a session with a
      transaction the keys are those given or found in the transaction. */
  datatype Config = Config(threshold: int, eligiblePublicKeys: seq<string>, scheduled: bool, timeout: Timeout)

  /** Half of the keys, rounded up, unless given; without a transaction there is no such default. */
  function EffectiveThreshold(config: Config, tx: Option<OfferedTx>): int {
    if config.threshold != 0 || tx.None? then config.threshold else (|config.eligiblePublicKeys| + 1) / 2
  }

  /** The transaction is not frozen, or the session would have no keys or no threshold, or one that its
      keys cannot reach. Only a session created with its transaction is checked for the last. */
  predicate CannotBeCreated(config: Config, tx: Option<OfferedTx>) {
    || (tx.Some? && !tx.value.isFrozen)
    || config.eligiblePublicKeys == []
    || EffectiveThreshold(config, tx) == 0
    || (tx.Some? && EffectiveThreshold(config, tx) > |config.eligiblePublicKeys|)
  }

  /** Creation is refused for a transaction that is not frozen, for no keys, for no threshold where there is
      no transaction, and for one beyond the keys where there is. The threshold of a session created is the
      one given, or else half of the keys, rounded up. */
  lemma CreationExactly(config: Config, tx: Option<OfferedTx>)
    ensures CannotBeCreated(config, tx) <==>
            || (tx.Some? && !tx.value.isFrozen)
            || config.eligiblePublicKeys == []
            || (tx.None? && config.threshold == 0)
            || (tx.Some? && config.threshold > |config.eligiblePublicKeys|)
    ensures var threshold := EffectiveThreshold(config, tx);
            && (config.threshold != 0 ==> threshold == config.threshold)
            && (config.threshold == 0 && tx.Some? ==> 2 * threshold - 1 <= |config.eligiblePublicKeys| <= 2 * threshold)
  {
  }

  class Manager {
    const store: Store
    const sdk: Sdk
    const defaultTimeout: Timeout
    const scheduledDefaultTimeout: NonZero

    constructor (store: Store, sdk: Sdk, defaultTimeout: Timeout, scheduledDefaultTimeout: Timeout)
      ensures this.store == store && this.sdk == sdk
      ensures this.defaultTimeout == defaultTimeout
      ensures this.scheduledDefaultTimeout ==
              if scheduledDefaultTimeout.Millis? && scheduledDefaultTimeout.ms != 0 then scheduledDefaultTimeout.ms else 86400000
    {
      this.store, this.sdk := store, sdk;
      this.defaultTimeout := defaultTimeout;
      this.scheduledDefaultTimeout :=
        if scheduledDefaultTimeout.Millis? && scheduledDefaultTimeout.ms != 0 then scheduledDefaultTimeout.ms else 86400000;
    }

    /** Neither `null` nor zero can be asked for a single session: they count as not given. */
    function EffectiveTimeout(config: Config): Timeout
    {
      if config.timeout.Millis? && config.timeout.ms != 0 then config.timeout
      else if config.scheduled then Millis(scheduledDefaultTimeout) else defaultTimeout
    }

    /** The timeout given counts unless it is missing, null or zero; a scheduled session without one gets the
        manager's, any other the default, where null means that it never expires. */
    lemma TimeoutExactly(config: Config, now: int)
      ensures config.timeout.Millis? && config.timeout.ms != 0 ==>
                store.ComputeExpiresAt(EffectiveTimeout(config), now) == Some(now + config.timeout.ms)
      ensures !(config.timeout.Millis? && config.timeout.ms != 0) && config.scheduled ==>
                store.ComputeExpiresAt(EffectiveTimeout(config), now) == Some(now + scheduledDefaultTimeout)
      ensures !(config.timeout.Millis? && config.timeout.ms != 0) && !config.scheduled && defaultTimeout.Unbounded? ==>
                store.ComputeExpiresAt(EffectiveTimeout(config), now) == None
      ensures !(config.timeout.Millis? && config.timeout.ms != 0) && !config.scheduled && defaultTimeout.Millis? && defaultTimeout.ms != 0 ==>
                store.ComputeExpiresAt(EffectiveTimeout(config), now) == Some(now + defaultTimeout.ms)
    {
    }

    /** Null where it throws: refused, or the store is full. A session created asks for at least one
        signature exactly if the threshold it was configured with is not negative. */
    method CreateSession(id: string, tx: Option<OfferedTx>, config: Config, now: int, ghost nextTimerId: nat)
      returns (s: LiveSession?)
      requires store.Valid() && id !in store.sessions
      modifies store
      ensures store.Valid()
      ensures s == null <==> CannotBeCreated(config, tx) || |old(store.sessions)| >= store.maxSessions
      ensures s == null ==> store.sessions == old(store.sessions)
      ensures s != null ==>
                && fresh(s) && store.sessions == old(store.sessions)[id := s]
                && s.terms == P.Terms(EffectiveThreshold(config, tx), config.eligiblePublicKeys,
                                      store.ComputeExpiresAt(EffectiveTimeout(config), now))
                && s.Alone() == P.Created(s.terms, TxOf(tx), config.scheduled, nextTimerId)
                && (s.terms.threshold >= 1 <==> config.threshold >= 0)
    {
      if tx.Some? && !tx.value.isFrozen { return null; }
      if config.eligiblePublicKeys == [] { return null; }
      var threshold := config.threshold;
      if tx.None? {
        if threshold == 0 { return null; }
      } else {
        if threshold == 0 { threshold := (|config.eligiblePublicKeys| + 1) / 2; }
        if threshold > |config.eligiblePublicKeys| { return null; }
      }
      s := store.CreateSession(id, TxOf(tx), threshold, config.eligiblePublicKeys, config.scheduled,
                               EffectiveTimeout(config), now, nextTimerId);
    }

    /** The checks between reading the session and storing the signature. */
    method CheckTuple(session: LiveSession, t: SignatureTuple, now: int) returns (reason: Option<P.Rejection>)
      ensures reason == P.CheckTuple(sdk, session.View(), t, now)
      ensures reason.None? ==> SignatureList(t).Some?
    {
      hide TupleVerifies, IsKeyEligible, Canonical;
      var sigList := SignatureList(t);
      if t.publicKey == "" || sigList.None? { return Some(P.InvalidFormat); }
      if session.frozenTransaction.None? { return Some(P.NoTransaction); }
      if !session.scheduled && session.transactionReceivedAt.Some? {
        var elapsed := now - session.transactionReceivedAt.value;
        if elapsed > P.VALIDITY_WINDOW_MS { return Some(P.WindowExpired); }
      }
      if !IsKeyEligible(t.publicKey, session.terms.eligiblePublicKeys) { return Some(P.NotEligible); }
      if t.publicKey in session.signatures { return Some(P.AlreadySigned); }
      CanonicalVerifies(sdk, session.frozenTransaction.value.bytes, t);
      var verifyResult := VerifySingle(sdk, session.frozenTransaction.value.bytes, Canonical(t));
      reason := if verifyResult.valid then None else Some(P.InvalidSignature);
    }

    /** A rejected submission reports the first check that failed; `None` means no such session. */
    method SubmitSignature(id: string, participantId: P.ParticipantId, t: SignatureTuple, now: int)
      returns (outcome: Option<P.SubmitOutcome>)
      modifies store.Held(id)`status, store.Held(id)`signatures, store.Held(id)`participants, store.Held(id)`signaturesCollected
      ensures outcome.Some? <==> id in store.sessions
      ensures outcome.Some? ==>
                && outcome.value == P.SubmitResult(sdk, old(store.View(id)), participantId, t, now)
                && store.View(id) == P.SubmitSignature(sdk, old(store.View(id)), participantId, t, now)
                && store.sessions[id].participants.Keys == old(store.sessions[id].participants.Keys)
    {
      hide P.CheckTuple, P.Read, P.WrittenStatus, SignatureList;
      var session := store.GetSession(id, now);
      if session == null { return None; }
      ghost var r0 := session.View();
      if session.status !in {P.TransactionReceived, P.Signing, P.Active} {
        return Some(P.Rejected(P.SessionNotAccepting));
      }
      if session.status == P.TransactionReceived && |session.signatures| == 0 {
        store.UpdateStatus(id, P.Signing);
      }
      ghost var r1 := session.View();
      P.CheckTupleIgnoresStatus(sdk, r0, r1.status, t, now);
      assert r1 == P.StartSigning(r0) == r0.(status := r1.status);
      var reason := CheckTuple(session, t, now);
      if reason.Some? {
        return Some(P.Rejected(reason.value));
      }
      var ok := store.AddSignature(id, participantId, Canonical(t), now);
      if !ok {
        return Some(P.Rejected(P.UnknownParticipant));
      }
      var thresholdMet := store.IsThresholdMet(id);
      outcome := Some(P.Accepted(thresholdMet));
    }

    /** The catch of an execution: only a session still marked executing becomes failed. */
    method ExecutionError(id: string, now: int)
      modifies store.Held(id)`status
      ensures id in store.sessions ==> store.View(id) == P.ExecutionError(old(store.View(id)), now)
    {
      var session := store.GetSession(id, now);
      if session != null && session.status == P.Executing {
        store.UpdateStatus(id, P.ExecutionFailed);
      }
    }

    /** The executor up to the network wait. The transaction it returns is the one sent; null means
        that nothing was. Stored signature lists are never empty. */
    method BeginExecution(id: string, now: int) returns (signedTx: SdkTransaction?)
      requires id in store.sessions ==> P.ListsNotEmpty(store.View(id).signatures)
      modifies store.Held(id)`status, store.Held(id)`executing, store.Held(id)`history
      ensures id !in store.sessions ==> signedTx == null
      ensures id in store.sessions ==>
                && store.sessions[id].Alone() == P.BeginExecution(sdk, old(store.sessions[id].Alone()), now)
                && store.sessions[id].history.submissions ==
                   old(store.sessions[id].history.submissions)
                   + if signedTx == null then []
                     else [P.Submission(P.Latest(old(store.sessions[id].Alone())), signedTx.bodies, signedTx.attached, now)]
    {
      hide P.SendTransaction, P.ExecutionError, P.Read, P.RefusesExecution;
      var session := store.GetSession(id, now);
      if session == null { return null; }
      if P.RefusesExecution(session.status) {
        ExecutionError(id, now);
        return null;
      }
      var met := store.IsThresholdMet(id);
      if !met {
        ExecutionError(id, now);
        return null;
      }
      signedTx := SendTransaction(id, now);
    }

    method SendTransaction(id: string, now: int) returns (signedTx: SdkTransaction?)
      requires id in store.sessions
      requires P.ListsNotEmpty(store.sessions[id].signatures)
      modifies store.Held(id)`status, store.Held(id)`executing, store.Held(id)`history
      ensures store.sessions[id].Alone() == P.SendTransaction(sdk, old(store.sessions[id].Alone()), now)
      ensures store.sessions[id].history.submissions ==
              old(store.sessions[id].history.submissions)
              + if signedTx == null then []
                else [P.Submission(P.Latest(old(store.sessions[id].Alone())), signedTx.bodies, signedTx.attached, now)]
    {
      hide P.Assemble, P.ExecutionError, P.UpdateStatus;
      var session := store.sessions[id];
      store.UpdateStatus(id, P.Executing);
      signedTx := AssembleTransaction(session, P.Latest(session.Alone()), now);
      if signedTx == null {
        ExecutionError(id, now);
        return;
      }
      session.executing := true;
      var submission := P.Submission(P.Latest(session.Alone()), signedTx.bodies, signedTx.attached, now);
      session.history := session.history.(submissions := session.history.submissions + [submission]);
    }

    /** Rebuild the frozen transaction, trim it if some signer signed too few bodies, and attach the
        signatures; null where any of it throws. */
    method AssembleTransaction(session: LiveSession, ghost epoch: nat, ghost now: int) returns (signedTx: SdkTransaction?)
      requires P.ListsNotEmpty(session.signatures)
      ensures signedTx != null ==> fresh(signedTx)
      ensures P.Assemble(sdk, session.View(), epoch, now)
              == if signedTx == null then None else Some(P.Submission(epoch, signedTx.bodies, signedTx.attached, now))
    {
      hide P.AttachedList, Attaches;
      if session.frozenTransaction.None? { return null; }
      var extracted := sdk.bodies(session.frozenTransaction.value.bytes);
      if extracted.None? { return null; }
      var rebuilt := new SdkTransaction(extracted.value);
      var bodyCount := |rebuilt.bodies|;
      var short := SomeListIsShort(session.signatures, bodyCount);
      var downgradeToSingleNode := bodyCount > 1 && short;
      if downgradeToSingleNode { rebuilt.TrimToFirst(); }
      AssembleByParts(sdk, session.View(), epoch, now, rebuilt.bodies);
      var ok := AttachAll(sdk, rebuilt, downgradeToSingleNode, session.signatures);
      signedTx := if ok then rebuilt else null;
    }

    /** The end of an execution, when the network has answered. */
    method FinishExecution(id: string, accepted: bool, now: int)
      modifies store.Held(id)`status, store.Held(id)`executing
      ensures id in store.sessions ==>
                store.sessions[id].Alone() == P.FinishExecution(old(store.sessions[id].Alone()), accepted, now)
    {
      if accepted {
        store.UpdateStatus(id, P.Completed);
      } else {
        ExecutionError(id, now);
      }
      if id in store.sessions { store.sessions[id].executing := false; }
    }

    /** False where it throws: no such session, one that is not waiting, or a transaction not frozen. */
    method InjectTransaction(id: string, offered: OfferedTx, now: int) returns (ok: bool)
      modifies store.Held(id)`frozenTransaction, store.Held(id)`status, store.Held(id)`transactionReceivedAt, store.Held(id)`history
      ensures ok <==> id in store.sessions && P.Read(old(store.View(id)), now).status == P.Waiting && offered.isFrozen
      ensures id in store.sessions ==>
                store.sessions[id].Alone() == if offered.isFrozen then P.InjectDirectly(old(store.sessions[id].Alone()), offered.tx, now)
                                              else P.ReadSession(old(store.sessions[id].Alone()), now)
    {
      var session := store.GetSession(id, now);
      if session == null || session.status != P.Waiting || !offered.isFrozen { return false; }
      ok := store.InjectTransaction(id, offered.tx, now);
      session.history := P.NewTransaction(session.Alone(), offered.tx, now);
    }

    method CancelSession(id: string)
      modifies store.Held(id)`status
      ensures id in store.sessions ==> store.View(id) == P.UpdateStatus(old(store.View(id)), P.Cancelled)
    {
      store.UpdateStatus(id, P.Cancelled);
    }
  }
}
