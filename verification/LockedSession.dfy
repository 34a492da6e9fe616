/** A session and its promise chain together: submissions and executions take the lock, every other
    handler runs at any time. The lock is what makes every such run a run of the session machine. */
module LockedSession {
  import opened Wrappers
  import opened SignatureVerifier
  import opened SessionRuns
  import P = SessionProtocol
  import I = SessionInvariant
  import L = SignatureLocks

  datatype State = State(chain: L.Chain, session: P.Session)

  /** What happens: a request is queued, a queued submission has its turn and runs through, a queued
      execution has its turn and runs to the network wait, the network answers it, or a handler that
      takes no lock runs. */
  datatype Action =
    | Queue(kind: L.Kind)
    | RunSubmission(index: nat, id: P.ParticipantId, tuple: SignatureTuple)
    | StartExecution(index: nat)
    | EndExecution(index: nat, ok: bool)
    | Handle(event: P.Event)

  datatype TimedAction = TimedAction(action: Action, now: int)

  predicate TakesLock(e: P.Event) {
    e.Submit? || e.Begin? || e.Finish?
  }

  /** Only the chain decides whose turn it is. */
  predicate Enabled(s: State, a: Action) {
    match a
    case Queue(_) => true
    case RunSubmission(k, _, _) => L.Enabled(s.chain, L.Start(k)) && s.chain.sections[k].kind.Submission?
    case StartExecution(k) => L.Enabled(s.chain, L.Start(k)) && s.chain.sections[k].kind.Execution?
    case EndExecution(k, ok) => L.Enabled(s.chain, L.End(k, !ok)) && s.chain.sections[k].kind.Execution?
    case Handle(e) => !TakesLock(e) && P.Enabled(s.session, e)
  }

  function SessionEvent(a: Action): Option<P.Event> {
    match a
    case Queue(_) => None
    case RunSubmission(_, id, tuple) => Some(P.Submit(id, tuple))
    case StartExecution(_) => Some(P.Begin)
    case EndExecution(_, ok) => Some(P.Finish(ok))
    case Handle(e) => Some(e)
  }

  function SessionStep(sdk: Sdk, w: P.Session, a: Action, now: int): P.Session {
    if SessionEvent(a).None? then w else P.Step(sdk, w, SessionEvent(a).value, now)
  }

  /** A submission ends as it runs; an execution that fails before the network wait ends at once. */
  function ChainStep(sdk: Sdk, s: State, a: Action, now: int): L.Chain
    requires Enabled(s, a)
  {
    match a
    case Queue(kind) => L.Append(s.chain, kind)
    case RunSubmission(k, id, tuple) =>
      var threw := P.SubmitResult(sdk, s.session.record, id, tuple, now).Rejected?;
      L.SetPhase(L.SetPhase(s.chain, k, L.Running), k, L.Ended(threw))
    case StartExecution(k) =>
      var running := L.SetPhase(s.chain, k, L.Running);
      if SessionStep(sdk, s.session, a, now).executing then running else L.SetPhase(running, k, L.Ended(true))
    case EndExecution(k, ok) => L.SetPhase(s.chain, k, L.Ended(!ok))
    case Handle(_) => s.chain
  }

  function Step(sdk: Sdk, s: State, a: Action, now: int): State
    requires Enabled(s, a)
  {
    State(ChainStep(sdk, s, a, now), SessionStep(sdk, s.session, a, now))
  }

  predicate IsRunning(c: L.Chain, k: int) {
    0 <= k < |c.sections| && c.sections[k].phase.Running?
  }

  /** Between actions the session is executing exactly when some section is running, and that is an
      execution. */
  ghost predicate Coupled(s: State) {
    && L.Inv(s.chain) && L.NothingNested(s.chain)
    && (s.session.executing ==> exists k :: IsRunning(s.chain, k))
    && (forall k :: IsRunning(s.chain, k) ==> s.session.executing && s.chain.sections[k].kind.Execution?)
  }

  /** A section whose turn has come finds nothing running. */
  lemma TurnMeansNothingRuns(c: L.Chain, k: nat)
    requires L.Inv(c) && L.Enabled(c, L.Start(k))
    ensures forall n :: !IsRunning(c, n)
  {
    if k > 0 {
      L.SettledIffAllEnded(c, k - 1);
    }
    forall n ensures !IsRunning(c, n) {
      assert 0 <= n < k ==> L.IsEnded(c, n);
      assert IsRunning(c, n) && k < n ==> L.IsEnded(c, k);
    }
  }

  lemma OnlyOneRuns(c: L.Chain, j: int, k: int)
    requires L.Inv(c) && IsRunning(c, j) && IsRunning(c, k)
    ensures j == k
  {
    assert j < k ==> L.IsEnded(c, j);
    assert k < j ==> L.IsEnded(c, k);
  }

  /** The lock makes every locked step possible for the session. */
  lemma LockEnables(s: State, a: Action)
    requires Coupled(s) && Enabled(s, a) && SessionEvent(a).Some?
    ensures P.Enabled(s.session, SessionEvent(a).value)
  {
    match a
    case RunSubmission(k, _, _) => TurnMeansNothingRuns(s.chain, k);
    case StartExecution(k) => TurnMeansNothingRuns(s.chain, k);
    case EndExecution(k, ok) => assert IsRunning(s.chain, k);
    case _ =>
  }

  lemma InjectingKeepsExecuting(w: P.Session, tx: P.FrozenTx, life: P.Lifetime, timerId: Option<nat>, now: int)
    ensures P.InjectTransaction(w, tx, life, timerId, now).executing == w.executing
    ensures P.InjectDirectly(w, tx, now).executing == w.executing
  {
    hide P.ClearTransactionState;
  }

  lemma DroppingKeepsExecuting(w: P.Session, id: P.ParticipantId, now: int)
    ensures P.RejectTransaction(w, id, now).executing == w.executing
    ensures P.ResetTransaction(w, now).executing == w.executing
    ensures P.ExpireTransaction(w, now).executing == w.executing
  {
    hide P.ClearTransactionState, P.UpdateParticipantStatus;
  }

  lemma ReadyKeepsExecuting(w: P.Session, id: P.ParticipantId, publicKey: Option<string>, now: int)
    ensures P.ParticipantReady(w, id, publicKey, now).executing == w.executing
    ensures P.CloseSocket(w, id, now).executing == w.executing
  {
    hide P.SetParticipantReady, P.RemoveParticipant;
  }

  /** No handler but the start and the end of an execution touches the lock. */
  lemma OthersKeepExecuting(sdk: Sdk, w: P.Session, e: P.Event, now: int)
    requires !e.Begin? && !e.Finish?
    ensures P.Step(sdk, w, e, now).executing == w.executing
  {
    hide P.InjectTransaction, P.InjectDirectly, P.RejectTransaction, P.ResetTransaction, P.ExpireTransaction;
    hide P.ParticipantReady, P.CloseSocket, P.SubmitSignature;
    match e
    case Inject(tx, life, timerId) => InjectingKeepsExecuting(w, tx, life, timerId, now);
    case InjectByManager(tx) => InjectingKeepsExecuting(w, tx, P.Unknown, None, now);
    case Reject(id) => DroppingKeepsExecuting(w, id, now);
    case Reset => DroppingKeepsExecuting(w, "", now);
    case ExpiryTimerFires(t) => DroppingKeepsExecuting(w.(timers := w.timers - {t}), "", now);
    case Ready(id, publicKey) => ReadyKeepsExecuting(w, id, publicKey, now);
    case Close(id) => ReadyKeepsExecuting(w, id, None, now);
    case _ =>
  }

  lemma StepKeepsCoupled(sdk: Sdk, s: State, a: Action, now: int)
    requires Coupled(s) && Enabled(s, a)
    ensures Coupled(Step(sdk, s, a, now))
  {
    hide P.Step;
    match a
    case Queue(kind) => QueueKeepsCoupled(s, kind);
    case RunSubmission(k, id, tuple) =>
      OthersKeepExecuting(sdk, s.session, P.Submit(id, tuple), now);
      PassingKeepsCoupled(s, k, Step(sdk, s, a, now));
    case StartExecution(k) => StartKeepsCoupled(s, k, Step(sdk, s, a, now));
    case EndExecution(k, ok) =>
      FinishReleases(sdk, s.session, ok, now);
      EndKeepsCoupled(s, k, ok, Step(sdk, s, a, now));
    case Handle(e) =>
      OthersKeepExecuting(sdk, s.session, e, now);
      assert Step(sdk, s, a, now).chain == s.chain;
  }

  lemma FinishReleases(sdk: Sdk, w: P.Session, ok: bool, now: int)
    ensures !P.Step(sdk, w, P.Finish(ok), now).executing
  {
  }

  lemma QueueKeepsCoupled(s: State, kind: L.Kind)
    requires Coupled(s)
    ensures Coupled(State(L.Append(s.chain, kind), s.session))
  {
    L.StepKeepsInv(s.chain, L.Arrive(kind));
    var c := L.Append(s.chain, kind);
    assert forall k :: IsRunning(c, k) <==> IsRunning(s.chain, k);
  }

  lemma PassingKeepsCoupled(s: State, k: nat, s': State)
    requires Coupled(s) && L.Enabled(s.chain, L.Start(k))
    requires exists threw :: s'.chain == L.SetPhase(L.SetPhase(s.chain, k, L.Running), k, L.Ended(threw))
    requires s'.session.executing == s.session.executing
    ensures Coupled(s')
  {
    var threw :| s'.chain == L.SetPhase(L.SetPhase(s.chain, k, L.Running), k, L.Ended(threw));
    TurnMeansNothingRuns(s.chain, k);
    L.StepKeepsInv(s.chain, L.Start(k));
    L.StepKeepsInv(L.SetPhase(s.chain, k, L.Running), L.End(k, threw));
    assert forall n :: !IsRunning(s'.chain, n);
  }

  lemma StartKeepsCoupled(s: State, k: nat, s': State)
    requires Coupled(s) && L.Enabled(s.chain, L.Start(k)) && s.chain.sections[k].kind.Execution?
    requires s'.chain == if s'.session.executing then L.SetPhase(s.chain, k, L.Running)
                         else L.SetPhase(L.SetPhase(s.chain, k, L.Running), k, L.Ended(true))
    ensures Coupled(s')
  {
    TurnMeansNothingRuns(s.chain, k);
    if s'.session.executing {
      L.StepKeepsInv(s.chain, L.Start(k));
      assert IsRunning(s'.chain, k);
      assert forall n :: IsRunning(s'.chain, n) ==> n == k;
    } else {
      PassingKeepsCoupled(s, k, s'.(session := s.session));
      assert forall n :: !IsRunning(s'.chain, n);
    }
  }

  lemma EndKeepsCoupled(s: State, k: nat, ok: bool, s': State)
    requires Coupled(s) && L.Enabled(s.chain, L.End(k, !ok))
    requires s'.chain == L.SetPhase(s.chain, k, L.Ended(!ok)) && !s'.session.executing
    ensures Coupled(s')
  {
    L.StepKeepsInv(s.chain, L.End(k, !ok));
    forall n ensures !IsRunning(s'.chain, n) {
      if IsRunning(s.chain, n) {
        OnlyOneRuns(s.chain, k, n);
      }
    }
  }

  predicate ValidActions(sdk: Sdk, s: State, run: seq<TimedAction>)
    decreases |run|
  {
    run != [] ==> Enabled(s, run[0].action) && ValidActions(sdk, Step(sdk, s, run[0].action, run[0].now), run[1..])
  }

  function FinalState(sdk: Sdk, s: State, run: seq<TimedAction>): State
    requires ValidActions(sdk, s, run)
    decreases |run|
  {
    if run == [] then s else FinalState(sdk, Step(sdk, s, run[0].action, run[0].now), run[1..])
  }

  /** What the session sees of a run. */
  function Seen(run: seq<TimedAction>): seq<Timed> {
    if run == [] then []
    else (if SessionEvent(run[0].action).None? then [] else [Timed(SessionEvent(run[0].action).value, run[0].now)]) + Seen(run[1..])
  }

  /** Every run in which submissions and executions go through the promise chain is a run of the session
      machine: the chain lets no submission and no execution begin while one executes. */
  lemma {:induction false} LockedRunIsSessionRun(sdk: Sdk, s: State, run: seq<TimedAction>)
    requires Coupled(s) && ValidActions(sdk, s, run)
    ensures ValidRun(sdk, s.session, Seen(run))
    ensures Final(sdk, s.session, Seen(run)) == FinalState(sdk, s, run).session
    ensures Coupled(FinalState(sdk, s, run))
    decreases |run|
  {
    hide Coupled, Enabled, ChainStep, P.Step, P.Enabled;
    if run != [] {
      var a, now := run[0].action, run[0].now;
      StepKeepsCoupled(sdk, s, a, now);
      LockedRunIsSessionRun(sdk, Step(sdk, s, a, now), run[1..]);
      if SessionEvent(a).Some? {
        LockEnables(s, a);
        assert Seen(run)[1..] == Seen(run[1..]);
      } else {
        assert Seen(run) == Seen(run[1..]);
      }
    }
  }

  /** So, however requests are queued and whatever else runs in between, every network submission is
      backed by enough verified signatures, and no transaction is submitted twice. */
  lemma LockedRunsAreSafe(sdk: Sdk, terms: P.Terms, tx: Option<P.FrozenTx>, scheduled: bool, run: seq<TimedAction>,
                          i: nat, j: nat)
    requires ValidActions(sdk, State(L.INITIAL, P.Created(terms, tx, scheduled, 1)), run)
    requires i < |FinalState(sdk, State(L.INITIAL, P.Created(terms, tx, scheduled, 1)), run).session.history.submissions|
    ensures var w := FinalState(sdk, State(L.INITIAL, P.Created(terms, tx, scheduled, 1)), run).session;
            var subs := w.history.submissions;
            && subs[i].epoch < P.Epochs(w)
            && I.Backed(sdk, terms, w.history.injected[subs[i].epoch], subs[i])
            && (i < j < |subs| ==> subs[i].epoch != subs[j].epoch)
  {
    hide I.Backed, P.Step, ChainStep, Enabled, ValidRun, ValidActions, FinalState, Final, Seen;
    var s := State(L.INITIAL, P.Created(terms, tx, scheduled, 1));
    assert Coupled(s);
    LockedRunIsSessionRun(sdk, s, run);
    EverySubmissionIsBacked(sdk, terms, tx, scheduled, 1, Seen(run), i);
    if i < j < |FinalState(sdk, s, run).session.history.submissions| {
      SubmittedAtMostOnce(sdk, terms, tx, scheduled, 1, Seen(run), i, j);
    }
  }
}
