/** The server's message handlers (server/WebSocketServer.js) on the live session objects, the
    connected sockets and the timer registry, each proved against its transition function. */
module WebSocketServer {
  import opened Wrappers
  import opened SignatureVerifier
  import opened SessionStore
  import opened SigningSessionManager
  import P = SessionProtocol
  import I = SessionInvariant
  import R = SessionRuns
  import T = TimerController

  type ParticipantId = P.ParticipantId

  /** A participant's connection: the session it was authenticated for, and whether it is open. */
  datatype Socket = Socket(sessionId: string, open: bool)

  /** The transaction, a participant's new status, news of one participant, or news of the session. */
  datatype Message =
    | TransactionReceived(tx: P.FrozenTx)
    | StatusChanged(p: ParticipantId, status: string)
    | About(kind: string, p: ParticipantId)
    | Notice(kind: string)

  datatype Sent = Sent(to: ParticipantId, message: Message)

  /** The connections of one session: which of them are open. */
  ghost function SocketsOf(clients: map<ParticipantId, Socket>, id: string): map<ParticipantId, bool> {
    map p | p in clients && clients[p].sessionId == id :: clients[p].open
  }

  /** The pending expiry timers of one session, with the epochs that armed them. */
  ghost function TimersOf(timers: map<nat, T.Timer>, armedFor: map<nat, nat>, id: string): map<nat, nat> {
    map t | t in timers && timers[t].callback == T.ExpireTransaction(id) :: if t in armedFor then armedFor[t] else 0
  }

  /** The timer a session names was given out, and expires that session if it is still pending. */
  ghost predicate OwnTimer(s: T.State, id: string, timer: Option<nat>) {
    timer.Some? ==>
      timer.value < s.nextId && (timer.value in s.timers ==> s.timers[timer.value].callback == T.ExpireTransaction(id))
  }

  /** The connections to other sessions are the same. */
  ghost predicate SameConnectionsElsewhere(before: map<ParticipantId, Socket>, after: map<ParticipantId, Socket>, id: string) {
    && (forall p :: p in before && before[p].sessionId != id ==> p in after && after[p] == before[p])
    && (forall p :: p in after && after[p].sessionId != id ==> p in before && before[p] == after[p])
  }

  /** The timers that do not expire this session are the same, and new timers have new ids. */
  ghost predicate SameTimersElsewhere(before: T.State, after: T.State, id: string) {
    && before.nextId <= after.nextId
    && (forall t :: t in after.timers && t !in before.timers ==> before.nextId <= t)
    && (forall t :: t in before.timers && before.timers[t].callback != T.ExpireTransaction(id) ==>
          t in after.timers && after.timers[t] == before.timers[t])
    && (forall t :: t in after.timers && after.timers[t].callback != T.ExpireTransaction(id) ==>
          t in before.timers && before.timers[t] == after.timers[t])
  }

  /** The timers given out so far were armed for the same epochs. */
  ghost predicate SameEpochs(nextId: nat, before: map<nat, nat>, after: map<nat, nat>) {
    forall t :: t < nextId ==> (t in before <==> t in after) && (t in before ==> before[t] == after[t])
  }

  lemma SocketsElsewhere(before: map<ParticipantId, Socket>, after: map<ParticipantId, Socket>, id: string)
    requires SameConnectionsElsewhere(before, after, id)
    ensures forall other :: other != id ==> SocketsOf(after, other) == SocketsOf(before, other)
  {
  }

  lemma TimersElsewhere(before: T.State, after: T.State, armedBefore: map<nat, nat>, armedAfter: map<nat, nat>, id: string)
    requires T.Agrees(before) && SameTimersElsewhere(before, after, id) && SameEpochs(before.nextId, armedBefore, armedAfter)
    ensures forall other :: other != id ==> TimersOf(after.timers, armedAfter, other) == TimersOf(before.timers, armedBefore, other)
  {
  }

  lemma ConnectionElsewhere(clients: map<ParticipantId, Socket>, id: string, p: ParticipantId)
    requires p in clients ==> clients[p].sessionId == id
    ensures SameConnectionsElsewhere(clients, clients - {p}, id)
    ensures forall open :: SameConnectionsElsewhere(clients, clients[p := Socket(id, open)], id)
  {
  }

  lemma DisarmedElsewhere(s: T.State, id: string, timer: Option<nat>)
    requires OwnTimer(s, id, timer)
    ensures SameTimersElsewhere(s, Disarmed(s, timer), id)
  {
  }

  lemma ArmedElsewhere(s: T.State, s1: T.State, id: string)
    requires T.Agrees(s1) && SameTimersElsewhere(s, s1, id)
    ensures SameTimersElsewhere(s, ExpiryArmed(s1, id), id)
  {
  }

  lemma FiredElsewhere(s: T.State, id: string, t: nat)
    requires t in s.timers && s.timers[t].callback == T.ExpireTransaction(id)
    ensures SameTimersElsewhere(s, T.FireTimer(s, t), id)
  {
  }

  /** The registry without this timer, if there is one. */
  ghost function Disarmed(s: T.State, timer: Option<nat>): T.State {
    if timer.Some? then T.Remove(s, {timer.value}) else s
  }

  /** The registry with an expiry timer for the session. */
  ghost function ExpiryArmed(s: T.State, id: string): T.State {
    T.SetTimer(s, T.Timeout, "tx-expiry-" + id, T.ExpireTransaction(id))
  }

  /** Everything that happens to a session at the server: messages of its clients, their connections, its
      expiry timer, and the sections that have obtained its lock. */
  datatype ServerEvent =
    | ReadyMessage(p: ParticipantId, publicKey: Option<string>)
    | StatusMessage(p: ParticipantId, status: string)
    | RejectMessage(p: ParticipantId)
    | InjectMessage(tx: P.FrozenTx, life: P.Lifetime)
    | AnnounceMessage
    | ResetMessage
    | Joins(p: ParticipantId)
    | Returns(p: ParticipantId)
    | StopsBeingOpen(p: ParticipantId)
    | Closes(p: ParticipantId)
    | TimerFires(t: nat)
    | SubmitSection(p: ParticipantId, tuple: SignatureTuple)
    | ExecuteSection
    | NetworkAnswers(accepted: bool)

  /** The machine's step for what happened. */
  predicate IsStepOf(step: P.Event, e: ServerEvent) {
    match e
    case ReadyMessage(p, publicKey) => step == P.Ready(p, publicKey)
    case StatusMessage(p, status) => step == P.StatusUpdate(p, status)
    case RejectMessage(p) => step == P.Reject(p)
    case InjectMessage(tx, life) => step.Inject? && step.tx == tx && step.life == life
    case AnnounceMessage => step == P.AnnounceSchedule
    case ResetMessage => step == P.Reset
    case Joins(p) => step == P.Join(p)
    case Returns(p) => step == P.Reconnect(p)
    case StopsBeingOpen(p) => step == P.SocketStopsBeingOpen(p)
    case Closes(p) => step == P.Close(p)
    case TimerFires(t) => step == P.ExpiryTimerFires(t)
    case SubmitSection(p, tuple) => SignatureList(tuple).Some? && step == P.Submit(p, Canonical(tuple))
    case ExecuteSection => step == P.Begin
    case NetworkAnswers(accepted) => step == P.Finish(accepted)
  }

  /** That step, then nothing but reads of the session; no step at all for a submission without signatures. */
  predicate IsRunOf(steps: seq<R.Timed>, e: ServerEvent, now: int) {
    && (steps == [] <==> e.SubmitSection? && SignatureList(e.tuple).None?)
    && (steps != [] ==> IsStepOf(steps[0].event, e))
    && forall i :: 0 <= i < |steps| ==> steps[i].now == now && (i > 0 ==> steps[i].event == P.ReadEvent)
  }

  class Server {
    const manager: Manager
    const store: Store := manager.store
    const timerController: T.Controller
    var clients: map<ParticipantId, Socket>
    /** What was sent to participants, in order. */
    var sent: seq<Sent>
    /** The epoch that armed each expiry timer. */
    ghost var armedFor: map<nat, nat>

    constructor (manager: Manager, timerController: T.Controller)
      requires manager.store.Valid() && manager.store.sessions == map[] && timerController.Valid()
      requires timerController.timers == map[]
      ensures (forall id :: Valid(id)) && this.manager == manager && this.timerController == timerController
      ensures clients == map[] && sent == []
    {
      this.manager, this.timerController := manager, timerController;
      clients, sent, armedFor := map[], [], map[];
    }

    /** The state of one session, as the state machine has it. */
    ghost function View(id: string): P.Session
      requires id in store.sessions
      reads this, timerController, store, store.Held(id)
    {
      var s := store.sessions[id];
      P.Session(s.View(), s.executing, SocketsOf(clients, id), TimersOf(timerController.timers, armedFor, id), s.nextTimerId, s.history)
    }

    /** What a session's handlers rely on: its participants' connections are to it, no timer id at or
        above its bound has been given out, the timer it names is its own, and expiry timers fire once. */
    ghost predicate Valid(id: string)
      reads this`clients, timerController, store`sessions, store.Held(id)`participants, store.Held(id)`nextTimerId,
            store.Held(id)`expirationTimerId
    {
      && store.Valid() && timerController.Valid()
      && (id in store.sessions ==>
            && (forall p :: p in store.sessions[id].participants && p in clients ==> clients[p].sessionId == id)
            && store.sessions[id].nextTimerId <= timerController.nextId
            && OwnTimer(timerController.View(), id, store.sessions[id].expirationTimerId))
      && (forall t :: t in timerController.timers && timerController.timers[t].callback == T.ExpireTransaction(id) ==>
            timerController.timers[t].kind == T.Timeout)
    }

    /** A session begins as the state machine has it, and satisfies its invariant; it asks for at least
        one signature exactly if it is not configured with a negative threshold; the other sessions are
        unaffected. `id` is freshly
        generated, so nothing refers to it yet. */
    method CreateSession(id: string, tx: Option<OfferedTx>, config: Config, now: int) returns (ok: bool)
      requires store.Valid() && timerController.Valid() && id !in store.sessions
      requires SocketsOf(clients, id) == map[] && TimersOf(timerController.timers, armedFor, id) == map[]
      modifies store
      ensures ok <==> !CannotBeCreated(config, tx) && |old(store.sessions)| < store.maxSessions
      ensures ok ==>
                && id in store.sessions && Valid(id)
                && View(id) == P.Created(store.sessions[id].terms, TxOf(tx), config.scheduled, timerController.nextId)
                && I.Inv(manager.sdk, View(id))
                && (store.sessions[id].terms.threshold >= 1 <==> config.threshold >= 0)
                && store.sessions == old(store.sessions)[id := store.sessions[id]]
      ensures forall other :: other in old(store.sessions) ==> other in store.sessions && Kept(other)
      ensures !ok ==> store.sessions == old(store.sessions)
    {
      hide CannotBeCreated, T.Agrees, Distinct;
      var s := manager.CreateSession(id, tx, config, now, timerController.nextId);
      ok := s != null;
      if ok {
        forall t | t in timerController.timers ensures timerController.timers[t].callback != T.ExpireTransaction(id) {
          assert t !in TimersOf(timerController.timers, armedFor, id);
        }
        I.CreatedSatisfiesInv(manager.sdk, s.terms, TxOf(tx), config.scheduled, timerController.nextId);
      }
    }

    /** The session's view is the same, and what its handlers rely on still holds. */
    twostate predicate Kept(id: string)
      requires id in store.sessions && id in old(store.sessions)
      reads this, timerController, store, store.Held(id)
    {
      View(id) == old(View(id)) && (old(Valid(id)) ==> Valid(id))
    }

    /** No other session is affected. */
    twostate predicate OthersKept(id: string)
      reads this, timerController, store, store.sessions.Values
    {
      store.sessions == old(store.sessions) && forall other :: other in store.sessions && other != id ==> Kept(other)
    }

    lemma OthersAreElsewhere(id: string)
      requires Valid(id)
      ensures forall other :: other in store.sessions && other != id ==> store.sessions[other] !in store.Held(id)
    {
      hide T.Agrees;
    }

    twostate lemma KeepsOthers(id: string)
      requires Valid(id) && store.sessions == old(store.sessions)
      requires forall other :: other in store.sessions && other != id ==> unchanged(store.sessions[other])
      requires SameConnectionsElsewhere(old(clients), clients, id)
      requires forall other, p :: other in store.sessions && other != id && p in store.sessions[other].participants
                                  && p in clients && clients[p].sessionId == id ==>
                 p in old(clients) && old(clients)[p].sessionId == id
      requires SameTimersElsewhere(old(timerController.View()), timerController.View(), id)
      requires old(timerController.Valid()) && SameEpochs(old(timerController.nextId), old(armedFor), armedFor)
      ensures OthersKept(id)
    {
      hide T.Agrees, Distinct, SocketsOf, TimersOf, SameEpochs;
      SocketsElsewhere(old(clients), clients, id);
      TimersElsewhere(old(timerController.View()), timerController.View(), old(armedFor), armedFor, id);
      forall other | other in store.sessions && other != id ensures View(other) == old(View(other)) {
      }
      forall other | other in store.sessions && other != id && old(Valid(other)) ensures Valid(other) {
      }
    }

    /** What one participant is sent: nothing unless its socket is open. */
    ghost function ToOne(p: ParticipantId, message: Message): seq<Sent>
      reads this`clients
    {
      if p in clients && clients[p].open then [Sent(p, message)] else []
    }

    /** A broadcast reaches the session's participants that are not left out and have an open connection;
        a single message reaches such a participant only. */
    lemma ReachesExactly(id: string, except: set<ParticipantId>, p: ParticipantId, message: Message)
      ensures p in Audience(id, except) <==>
                && id in store.sessions && p in store.sessions[id].participants && p !in except
                && p in clients && clients[p].open
      ensures Sent(p, message) in ToOne(p, message) <==> p in clients && clients[p].open
      ensures forall s :: s in ToOne(p, message) ==> s == Sent(p, message)
    {
    }

    /** `sendToParticipant` */
    method SendToParticipant(p: ParticipantId, message: Message)
      modifies this`sent
      ensures sent == old(sent) + ToOne(p, message)
    {
      if p in clients && clients[p].open {
        sent := sent + [Sent(p, message)];
      }
    }

    ghost function Reachable(participants: set<ParticipantId>): set<ParticipantId>
      reads this`clients
    {
      set p | p in participants && p in clients && clients[p].open
    }

    /** Whom a broadcast to a session reaches: its participants outside `except` whose socket is open. */
    ghost function Audience(id: string, except: set<ParticipantId>): set<ParticipantId>
      reads this`clients, store`sessions, store.Held(id)`participants
    {
      if id in store.sessions then Reachable(store.sessions[id].participants.Keys - except) else {}
    }

    lemma NobodyToTell(id: string, message: Message, except: set<ParticipantId>)
      requires id !in store.sessions
      ensures Told(sent, sent, message, Audience(id, except))
    {
      assert sent[|sent|..] == [];
      NobodyReached(message);
    }

    /** Send to each of these participants whose socket is open, once. */
    method SendToEach(participants: set<ParticipantId>, message: Message)
      modifies this`sent
      ensures Told(old(sent), sent, message, Reachable(participants))
    {
      hide IsBroadcast;
      ghost var before := sent;
      ghost var added: seq<Sent> := [];
      ghost var reached: set<ParticipantId> := {};
      NobodyReached(message);
      var todo := participants;
      while todo != {}
        invariant todo <= participants && sent == before + added
        invariant reached == Reachable(participants - todo)
        invariant IsBroadcast(added, message, reached)
        decreases |todo|
      {
        var p :| p in todo;
        todo := todo - {p};
        if p in clients && clients[p].open {
          OneMoreReached(added, message, reached, p);
          sent, added := sent + [Sent(p, message)], added + [Sent(p, message)];
          reached := reached + {p};
        }
      }
      assert participants - todo == participants;
      assert sent[|before|..] == added;
    }

    /** `broadcastToSession`: every participant of the session outside `except` whose socket is open is
        sent the message once. */
    method BroadcastToSession(id: string, message: Message, except: set<ParticipantId>, now: int)
      requires Valid(id) && (message.TransactionReceived? ==> except == {})
      modifies this`sent, store.Held(id)`status, store.Held(id)`history
      ensures Valid(id)
      ensures id in store.sessions ==>
                View(id) == if message.TransactionReceived? then P.DeliverToAll(P.ReadSession(old(View(id)), now))
                            else P.ReadSession(old(View(id)), now)
      ensures Told(old(sent), sent, message, Audience(id, except))
    {
      hide IsBroadcast, SocketsOf, TimersOf, Valid, Reachable;
      var session := store.GetSession(id, now);
      if session == null { NobodyToTell(id, message, except); return; }
      var participants := session.participants.Keys - except;
      SendToEach(participants, message);
      DeliveredToReachable(id);
      assert except == {} ==> participants == session.participants.Keys;
      if message.TransactionReceived? {
        session.history := session.history.(delivered := session.history.delivered + Reachable(participants));
      }
    }

    /** `_handleTransactionExpired` */
    method HandleTransactionExpired(id: string, now: int)
      requires Valid(id)
      modifies this`sent, store.Held(id)`status, store.Held(id)`frozenTransaction, store.Held(id)`signatures,
               store.Held(id)`signaturesCollected, store.Held(id)`history
      ensures Valid(id)
      ensures id in store.sessions ==> View(id) == P.ExpireTransaction(old(View(id)), now)
      ensures if id in store.sessions && P.Read(old(View(id)).record, now).status !in {P.Completed, P.TransactionExpired}
              then Told(old(sent), sent, Notice("TRANSACTION_EXPIRED"), Audience(id, {})) else sent == old(sent)
    {
      hide SocketsOf, TimersOf, Valid, P.ExpireRecord, P.Read, Told, Audience;
      var session := store.GetSession(id, now);
      if session != null && session.status != P.Completed {
        var wasExpired := session.status == P.TransactionExpired;
        if !wasExpired {
          TellExpired(id, now);
        }
      }
    }

    method TellExpired(id: string, now: int)
      requires Valid(id) && id in store.sessions
      modifies this`sent, store.Held(id)`status, store.Held(id)`frozenTransaction, store.Held(id)`signatures,
               store.Held(id)`signaturesCollected, store.Held(id)`history
      ensures Valid(id) && View(id) == old(View(id)).(record := P.ExpireRecord(old(View(id)).record))
      ensures Told(old(sent), sent, Notice("TRANSACTION_EXPIRED"), Audience(id, {}))
    {
      hide Told, Audience, SocketsOf, TimersOf, Valid, P.Read;
      var session := store.sessions[id];
      session.status := P.TransactionExpired;
      P.ReadChangesStatusOnly(session.View(), now);
      BroadcastToSession(id, Notice("TRANSACTION_EXPIRED"), {}, now);
      session.ForgetTransaction();
      session.status := P.Waiting;
    }

    /** Disarm the session's expiry timer, if it has one pending. */
    method DisarmExpiry(id: string)
      requires Valid(id) && id in store.sessions
      modifies timerController`timers, timerController`armed
      ensures Valid(id) && View(id) == P.Disarm(old(View(id)))
      ensures timerController.View() == Disarmed(old(timerController.View()), old(store.sessions[id].expirationTimerId))
    {
      hide SocketsOf, TimersOf, Distinct, T.Agrees;
      var timer := store.sessions[id].expirationTimerId;
      if timer.Some? {
        TimersOfRemoved(timerController.timers, armedFor, id, timer.value);
        var found := timerController.Clear(timer.value);
      }
    }

    /** Arm the session's expiry timer for the transaction just injected. */
    method ArmExpiry(id: string, delay: int) returns (timerId: Option<nat>)
      requires Valid(id) && id in store.sessions
      modifies timerController, this`armedFor, store.Held(id)`expirationTimerId, store.Held(id)`nextTimerId
      ensures Valid(id)
      ensures timerId == if old(timerController.isShuttingDown) then None else Some(old(timerController.nextId))
      ensures View(id) == P.ArmTimer(old(View(id)), timerId)
      ensures timerController.View() == ExpiryArmed(old(timerController.View()), id)
      ensures timerId.Some? ==> timerId.value >= old(View(id)).nextTimerId
      ensures SameEpochs(old(timerController.nextId), old(armedFor), armedFor)
    {
      hide SocketsOf, TimersOf, Distinct, T.Agrees, ExpiryArmed;
      var session := store.sessions[id];
      ghost var before, epoch := timerController.View(), P.Latest(session.Alone());
      ArmedTimers(before, armedFor, id, epoch);
      assert ExpiryArmed(before, id) == T.SetTimer(before, T.Timeout, "tx-expiry-" + id, T.ExpireTransaction(id)) by {
        ArmedIsSet(before, id);
      }
      hide T.SetTimer;
      timerId := timerController.SetTimeout("tx-expiry-" + id, T.ExpireTransaction(id));
      session.expirationTimerId := timerId;
      if timerId.Some? {
        session.nextTimerId := timerId.value + 1;
        armedFor := armedFor[timerId.value := epoch];
      }
    }

    /** Clear what the previous transaction left and store the new one; returns whose status changed. */
    method ReplaceTransaction(id: string, tx: P.FrozenTx, now: int) returns (changed: set<ParticipantId>)
      requires Valid(id) && id in store.sessions
      modifies timerController`timers, timerController`armed, store.Held(id)
      ensures Valid(id) && View(id) == P.ReplaceTransaction(old(View(id)), tx, now)
      ensures timerController.View() == Disarmed(old(timerController.View()), old(store.sessions[id].expirationTimerId))
      ensures changed == StaleParticipants(old(store.sessions[id].participants)) <= store.sessions[id].participants.Keys
    {
      hide SocketsOf, TimersOf, Valid, Disarmed, P.ClearTransactionState, P.Read, StaleParticipants;
      var session := store.sessions[id];
      changed := ClearPrevious(id, now);
      DisarmExpiry(id);
      session.Receive(tx, now);
      session.history := P.NewTransaction(View(id), tx, now);
    }

    /** Clear the signatures and participant statuses of the transaction before. */
    method ClearPrevious(id: string, now: int) returns (changed: set<ParticipantId>)
      requires Valid(id) && id in store.sessions
      modifies store.Held(id)`participants, store.Held(id)`status, store.Held(id)`signatures, store.Held(id)`signaturesCollected
      ensures Valid(id)
      ensures View(id) == old(View(id)).(record := P.ClearTransactionState(P.Read(old(View(id)).record, now)))
      ensures changed == StaleParticipants(old(store.sessions[id].participants)) <= store.sessions[id].participants.Keys
    {
      hide SocketsOf, TimersOf, Distinct, T.Agrees, P.ClearTransactionState;
      var session := store.GetSession(id, now);
      changed := store.ClearTransactionState(id);
    }

    /** Tell the session about each participant whose status was reset. */
    method BroadcastStatuses(id: string, changed: set<ParticipantId>, now: int)
      requires Valid(id) && id in store.sessions && changed <= store.sessions[id].participants.Keys
      modifies this`sent, store.Held(id)`status, store.Held(id)`history
      ensures Valid(id)
      ensures View(id) == if changed == {} then old(View(id)) else P.ReadSession(old(View(id)), now)
      ensures ToldStatuses(old(sent), sent, changed, store.sessions[id].participants, Audience(id, {}))
    {
      hide ToldStatuses, Audience, View, Valid, P.ReadSession;
      ghost var w, before := View(id), sent;
      P.ReadSessionTwice(w, now);
      NoStatusTold(sent, store.sessions[id].participants, Audience(id, {}));
      var todo := changed;
      ghost var done := {};
      while todo != {}
        invariant Valid(id) && todo <= changed && done == changed - todo
        invariant View(id) == if done == {} then w else P.ReadSession(w, now)
        invariant ToldStatuses(before, sent, done, store.sessions[id].participants, Audience(id, {}))
        decreases |todo|
      {
        var p :| p in todo;
        BroadcastStatus(id, p, before, done, now);
        todo, done := todo - {p}, done + {p};
      }
      assert done == changed;
    }

    /** Tell the session about one participant more. */
    method BroadcastStatus(id: string, p: ParticipantId, ghost before: seq<Sent>, ghost done: set<ParticipantId>, now: int)
      requires Valid(id) && id in store.sessions && p in store.sessions[id].participants && p !in done
      requires ToldStatuses(before, sent, done, store.sessions[id].participants, Audience(id, {}))
      modifies this`sent, store.Held(id)`status, store.Held(id)`history
      ensures Valid(id) && View(id) == P.ReadSession(old(View(id)), now)
      ensures ToldStatuses(before, sent, done + {p}, store.sessions[id].participants, Audience(id, {}))
    {
      hide Told, ToldStatuses, Audience, View, Valid, P.ReadSession;
      ghost var mid := sent;
      BroadcastToSession(id, StatusChanged(p, store.sessions[id].participants[p].status), {}, now);
      OneMoreStatus(before, mid, sent, done, store.sessions[id].participants, p, Audience(id, {}));
    }

    /** `_handleTransactionInject`, on a transaction that normalises. Returns the id of the expiry timer
        it armed. Whoever counts as having been sent the transaction is in the log. */
    method HandleTransactionInject(id: string, tx: P.FrozenTx, life: P.Lifetime, now: int) returns (timerId: Option<nat>)
      requires Valid(id)
      modifies this`sent, this`armedFor, timerController, store.Held(id)
      ensures Valid(id)
      ensures id in store.sessions ==>
                && P.Enabled(old(View(id)), P.Inject(tx, life, timerId))
                && View(id) == P.Step(manager.sdk, old(View(id)), P.Inject(tx, life, timerId), now)
                && forall p :: p in View(id).history.delivered ==> Sent(p, TransactionReceived(tx)) in sent
      ensures id !in store.sessions ==> sent == old(sent)
      ensures id in store.sessions ==>
                if P.KnownAndOver(life, now) then Told(old(sent), sent, Notice("TRANSACTION_EXPIRED"), Audience(id, {}))
                else Announced(old(sent), sent, StaleParticipants(old(store.sessions[id].participants)),
                               store.sessions[id].participants, TransactionReceived(tx), Audience(id, {}))
      ensures id in store.sessions ==>
                var disarmed := Disarmed(old(timerController.View()), old(store.sessions[id].expirationTimerId));
                timerController.View() == if P.KnownAndAhead(life, now) then ExpiryArmed(disarmed, id) else disarmed
      ensures SameEpochs(old(timerController.nextId), old(armedFor), armedFor)
    {
      hide Told, Announced, Audience, StaleParticipants, SocketsOf, TimersOf, Valid;
      hide P.ReplaceTransaction, P.ArmTimer, P.ExpireTransaction, P.DeliverToAll, P.ReadSession;
      timerId := None;
      if id !in store.sessions { return; }
      ghost var w0 := View(id);
      P.ReplaceKeepsTimerBound(w0, tx, now);
      var changed := ReplaceTransaction(id, tx, now);
      var expired;
      expired, timerId := SetUpExpiry(id, life, now);
      P.NothingDeliveredYet(w0, tx, timerId, now);
      P.ReplacedIsInFlight(w0, tx, now);
      if expired { return; }
      Announce(id, changed, TransactionReceived(tx), now);
    }

    /** Tell the session about the reset participants, then the news. */
    method Announce(id: string, changed: set<ParticipantId>, news: Message, now: int)
      requires Valid(id) && id in store.sessions && changed <= store.sessions[id].participants.Keys
      modifies this`sent, store.Held(id)`status, store.Held(id)`history
      ensures Valid(id)
      ensures View(id) == if news.TransactionReceived? then P.DeliverToAll(P.ReadSession(old(View(id)), now))
                          else P.ReadSession(old(View(id)), now)
      ensures news.TransactionReceived? && old(View(id)).history.delivered == {} ==>
                forall p :: p in View(id).history.delivered ==> Sent(p, news) in sent
      ensures Announced(old(sent), sent, changed, store.sessions[id].participants, news, Audience(id, {}))
    {
      hide SocketsOf, TimersOf, Valid, P.Read, ToldStatuses;
      P.ReadSessionTwice(View(id), now);
      BroadcastStatuses(id, changed, now);
      ghost var mid := sent;
      BroadcastToSession(id, news, {}, now);
      assert Told(mid, sent, news, Audience(id, {}));
      DeliveredToReachable(id);
      assert store.sessions[id].participants.Keys - {} == store.sessions[id].participants.Keys;
    }

    /** Arm the expiry timer of the transaction just stored, if its lifetime is known, or expire it at
        once if that is over. */
    method SetUpExpiry(id: string, life: P.Lifetime, now: int) returns (expired: bool, timerId: Option<nat>)
      requires Valid(id) && id in store.sessions
      modifies this`sent, this`armedFor, timerController
      modifies store.Held(id)`status, store.Held(id)`frozenTransaction, store.Held(id)`signatures, store.Held(id)`signaturesCollected,
               store.Held(id)`history, store.Held(id)`expirationTimerId, store.Held(id)`nextTimerId
      ensures Valid(id)
      ensures expired <==> life.Known? && life.validStart != 0 && P.TimeUntilExpiry(life, now) <= 0
      ensures View(id) == if expired then P.ExpireTransaction(old(View(id)), now)
                          else if life.Known? && life.validStart != 0 then P.ArmTimer(old(View(id)), timerId)
                          else old(View(id))
      ensures timerController.View() == if P.KnownAndAhead(life, now) then ExpiryArmed(old(timerController.View()), id)
                                        else old(timerController.View())
      ensures timerId.Some? ==> timerId.value >= old(View(id)).nextTimerId
      ensures SameEpochs(old(timerController.nextId), old(armedFor), armedFor)
      ensures if expired && P.Read(old(View(id)).record, now).status !in {P.Completed, P.TransactionExpired}
              then Told(old(sent), sent, Notice("TRANSACTION_EXPIRED"), Audience(id, {})) else sent == old(sent)
    {
      hide Told, Audience, SocketsOf, TimersOf, Valid, P.ArmTimer, P.ExpireTransaction, P.Read;
      expired, timerId := false, None;
      if life.Known? && life.validStart != 0 {
        var validDuration := if life.duration == 0 then 120 else life.duration;
        var txExpiresAt := life.validStart + validDuration;
        var timeUntilExpiry := (txExpiresAt - now / 1000) * 1000;
        if timeUntilExpiry > 0 {
          timerId := ArmExpiry(id, timeUntilExpiry);
        } else {
          HandleTransactionExpired(id, now);
          expired := true;
        }
      }
    }

    /** `_handleResetTransaction` */
    method HandleResetTransaction(id: string, now: int)
      requires Valid(id)
      modifies this`sent, store.Held(id)
      ensures Valid(id)
      ensures id in store.sessions ==> View(id) == P.Step(manager.sdk, old(View(id)), P.Reset, now)
      ensures if && id in store.sessions
                 && P.Read(old(View(id)).record, now).status in {P.TransactionReceived, P.Signing, P.TransactionExpired, P.Waiting}
              then Told(old(sent), sent, Notice("TRANSACTION_RESET"), Audience(id, {})) else sent == old(sent)
    {
      hide Told, Audience, SocketsOf, TimersOf, Valid, P.Read, P.UpdateStatus;
      var session := store.GetSession(id, now);
      if session != null && session.status in {P.TransactionReceived, P.Signing, P.TransactionExpired, P.Waiting} {
        Forget(id);
        BroadcastToSession(id, Notice("TRANSACTION_RESET"), {}, now);
      }
    }

    /** Drop the transaction and its signatures; the session waits for another, if it does not already. */
    method Forget(id: string)
      requires Valid(id) && id in store.sessions
      modifies store.Held(id)`status, store.Held(id)`frozenTransaction, store.Held(id)`signatures, store.Held(id)`signaturesCollected
      ensures Valid(id)
      ensures var r := old(View(id)).record;
              var cleared := r.(frozenTransaction := None, signatures := map[], stats := r.stats.(signaturesCollected := 0));
              View(id) == old(View(id)).(record := if r.status == P.Waiting then cleared else P.UpdateStatus(cleared, P.Waiting))
    {
      hide SocketsOf, TimersOf, Valid, P.UpdateStatus;
      var session := store.sessions[id];
      var wasAlreadyWaiting := session.status == P.Waiting;
      session.ForgetTransaction();
      if !wasAlreadyWaiting {
        store.UpdateStatus(id, P.Waiting);
      }
    }

    /** `_handleScheduleAnnounce`, as far as it changes how signatures are accepted. */
    method HandleScheduleAnnounce(id: string, now: int)
      requires Valid(id)
      modifies this`sent, store.Held(id)
      ensures Valid(id)
      ensures id in store.sessions ==> View(id) == P.Step(manager.sdk, old(View(id)), P.AnnounceSchedule, now)
      ensures Told(old(sent), sent, Notice("SCHEDULE_CREATED"), Audience(id, {}))
    {
      hide Told, Audience, SocketsOf, TimersOf, Valid;
      var session := store.GetSession(id, now);
      if session != null {
        session.scheduled := true;
        BroadcastToSession(id, Notice("SCHEDULE_CREATED"), {}, now);
      } else {
        NobodyToTell(id, Notice("SCHEDULE_CREATED"), {});
      }
    }

    /** `_handleStatusUpdate` */
    method HandleStatusUpdate(id: string, p: ParticipantId, status: string, now: int)
      requires Valid(id)
      modifies this`sent, store.Held(id)
      ensures Valid(id)
      ensures id in store.sessions ==> View(id) == P.Step(manager.sdk, old(View(id)), P.StatusUpdate(p, status), now)
      ensures Told(old(sent), sent, StatusChanged(p, status), Audience(id, {}))
    {
      hide Told, Audience, SocketsOf, TimersOf, Distinct, T.Agrees, P.UpdateParticipantStatus, P.Read;
      store.UpdateParticipantStatus(id, p, status);
      BroadcastToSession(id, StatusChanged(p, status), {}, now);
    }

    /** `_handleTransactionRejected` */
    method HandleTransactionRejected(id: string, p: ParticipantId, now: int)
      requires Valid(id)
      modifies this`sent, timerController`timers, timerController`armed, store.Held(id)
      ensures Valid(id)
      ensures id in store.sessions ==> View(id) == P.Step(manager.sdk, old(View(id)), P.Reject(p), now)
      ensures id in store.sessions ==>
                timerController.View() == Disarmed(old(timerController.View()), old(store.sessions[id].expirationTimerId))
      ensures id !in store.sessions ==> sent == old(sent)
      ensures id in store.sessions ==>
                Announced(old(sent), sent, Rejectors(old(store.sessions[id].participants), p),
                          store.sessions[id].participants, About("TRANSACTION_REJECTED", p), Audience(id, {}))
    {
      hide Told, Audience, Announced, Rejectors, SocketsOf, TimersOf, Valid;
      if id in store.sessions {
        var changed := AbandonTransaction(id, p, now);
        Announce(id, changed, About("TRANSACTION_REJECTED", p), now);
      }
    }

    /** Mark who rejected, drop the transaction with its signatures and timer, and wait for another. */
    method AbandonTransaction(id: string, p: ParticipantId, now: int) returns (changed: set<ParticipantId>)
      requires Valid(id) && id in store.sessions
      modifies timerController`timers, timerController`armed, store.Held(id)
      ensures Valid(id)
      ensures P.ReadSession(View(id), now) == P.RejectTransaction(old(View(id)), p, now)
      ensures changed == Rejectors(old(store.sessions[id].participants), p) <= store.sessions[id].participants.Keys
      ensures timerController.View() == Disarmed(old(timerController.View()), old(store.sessions[id].expirationTimerId))
    {
      hide SocketsOf, TimersOf, Distinct, T.Agrees, P.ClearTransactionState, P.UpdateParticipantStatus, Rejectors;
      changed := MarkRejected(id, p, now);
      DisarmExpiry(id);
      store.sessions[id].Abandon();
    }

    method MarkRejected(id: string, p: ParticipantId, now: int) returns (changed: set<ParticipantId>)
      requires Valid(id) && id in store.sessions
      modifies store.Held(id)`participants, store.Held(id)`status, store.Held(id)`signatures, store.Held(id)`signaturesCollected
      ensures Valid(id)
      ensures View(id) == old(View(id)).(record :=
                P.ClearTransactionState(P.Read(P.UpdateParticipantStatus(old(View(id)).record, p, "rejected"), now)))
      ensures changed == Rejectors(old(store.sessions[id].participants), p) <= store.sessions[id].participants.Keys
    {
      hide SocketsOf, TimersOf, Distinct, T.Agrees, P.ClearTransactionState, P.UpdateParticipantStatus, P.Read;
      RejectorsAreStale(store.sessions[id].View(), p);
      store.UpdateParticipantStatus(id, p, "rejected");
      hide Rejectors, StaleParticipants;
      changed := ClearPrevious(id, now);
    }

    /** `_handleParticipantReady`, with the catch-up of a late joiner. */
    method HandleParticipantReady(id: string, p: ParticipantId, publicKey: Option<string>, now: int)
      requires Valid(id)
      modifies this`sent, store.Held(id)
      ensures Valid(id)
      ensures id in store.sessions ==> View(id) == P.Step(manager.sdk, old(View(id)), P.Ready(p, publicKey), now)
      ensures id in store.sessions && View(id).history != old(View(id)).history ==>
                && View(id).record.frozenTransaction.Some?
                && Sent(p, TransactionReceived(View(id).record.frozenTransaction.value)) in sent
      ensures id in store.sessions && p in old(View(id)).record.participants ==>
                ToldReady(old(sent), sent, p, p in clients && clients[p].open, View(id).record, Audience(id, {}))
      ensures id !in store.sessions || p !in old(View(id)).record.participants ==> sent == old(sent) + ToOne(p, Notice("ERROR"))
    {
      hide Told, ToldReady, CaughtUp, Audience, SocketsOf, TimersOf, Valid, P.SetParticipantReady, P.CatchUp, P.Read;
      var ok := MarkReady(id, p, publicKey);
      if ok {
        TellReady(id, p, now);
      } else {
        SendToParticipant(p, Notice("ERROR"));
      }
    }

    /** Tell the session who is ready, and catch that participant up. */
    method TellReady(id: string, p: ParticipantId, now: int)
      requires Valid(id) && id in store.sessions && p in store.sessions[id].participants
      modifies this`sent, store.Held(id)`status, store.Held(id)`history
      ensures Valid(id) && View(id) == P.CatchUp(P.ReadSession(old(View(id)), now), p)
      ensures ToldReady(old(sent), sent, p, p in clients && clients[p].open, View(id).record, Audience(id, {}))
      ensures View(id).history == old(View(id)).history
              || (View(id).record.frozenTransaction.Some?
                    && Sent(p, TransactionReceived(View(id).record.frozenTransaction.value)) in sent)
    {
      hide Told, ToldReady, CaughtUp, Audience, SocketsOf, TimersOf, Valid, P.CatchUp, P.Read;
      P.ReadSessionTwice(View(id), now);
      ghost var before := sent;
      BroadcastToSession(id, About("PARTICIPANT_READY", p), {}, now);
      ghost var mid := sent;
      CatchUp(id, p, now);
      ReadyThenCaughtUp(before, mid, sent, p, p in clients && clients[p].open, View(id).record, Audience(id, {}));
    }

    method MarkReady(id: string, p: ParticipantId, publicKey: Option<string>) returns (ok: bool)
      requires Valid(id)
      modifies store.Held(id)`participants, store.Held(id)`participantsReady
      ensures Valid(id) && (ok <==> id in store.sessions && p in store.sessions[id].participants)
      ensures id in store.sessions ==> old(p in store.sessions[id].participants) == ok
      ensures id in store.sessions ==>
                View(id) == if ok then old(View(id)).(record := P.SetParticipantReady(old(View(id)).record, p, publicKey))
                            else old(View(id))
    {
      hide SocketsOf, TimersOf, Distinct, T.Agrees, P.SetParticipantReady;
      ok := store.SetParticipantReady(id, p, publicKey);
    }

    /** Send the transaction in flight, if there is one, to one participant. */
    method CatchUp(id: string, p: ParticipantId, now: int)
      requires Valid(id) && id in store.sessions && p in store.sessions[id].participants
      modifies this`sent, store.Held(id)`status, store.Held(id)`history
      ensures Valid(id) && View(id) == P.CatchUp(P.ReadSession(old(View(id)), now), p)
      ensures CaughtUp(old(sent), sent, p, p in clients && clients[p].open, View(id).record)
      ensures View(id).history == old(View(id)).history
              || (View(id).record.frozenTransaction.Some?
                    && Sent(p, TransactionReceived(View(id).record.frozenTransaction.value)) in sent)
    {
      hide SocketsOf, TimersOf, Valid;
      OpenToParticipant(id, p);
      var session := store.GetSession(id, now);
      var inFlight := (session.status == P.TransactionReceived || session.status == P.Signing) && session.frozenTransaction.Some?;
      if inFlight {
        SendToParticipant(p, TransactionReceived(session.frozenTransaction.value));
        if p in clients && clients[p].open {
          session.history := session.history.(delivered := session.history.delivered + {p});
        }
      }
    }

    /** The close of a participant's connection. */
    method HandleClose(id: string, p: ParticipantId, now: int)
      requires Valid(id)
      modifies this`sent, this`clients, store.Held(id)
      ensures Valid(id)
      ensures id in store.sessions ==> View(id) == P.Step(manager.sdk, old(View(id)), P.Close(p), now)
      ensures clients == old(clients) - {p}
      ensures Told(old(sent), sent, About("PARTICIPANT_DISCONNECTED", p), Audience(id, {}))
    {
      hide Told, Audience, SocketsOf, TimersOf, Valid, P.RemoveParticipant, P.Read;
      Disconnect(id, p);
      BroadcastToSession(id, About("PARTICIPANT_DISCONNECTED", p), {}, now);
    }

    method Disconnect(id: string, p: ParticipantId)
      requires Valid(id)
      modifies this`clients, store.Held(id)`participants, store.Held(id)`participantsConnected, store.Held(id)`participantsReady
      ensures Valid(id)
      ensures clients == old(clients) - {p}
      ensures id in store.sessions ==>
                View(id) == old(View(id)).(sockets := old(View(id)).sockets - {p},
                                           record := P.RemoveParticipant(old(View(id)).record, p))
    {
      hide SocketsOf, TimersOf, Distinct, T.Agrees, P.RemoveParticipant;
      SocketsOfRemoved(clients, id, p);
      clients := clients - {p};
      store.RemoveParticipant(id, p);
    }

    /** An authenticated newcomer, with the participant id generated for it. */
    method Join(id: string, p: ParticipantId, now: int)
      requires Valid(id) && id in store.sessions
      requires P.Enabled(View(id), P.Join(p))
      modifies this`sent, this`clients, store.Held(id)
      ensures Valid(id) && View(id) == P.Step(manager.sdk, old(View(id)), P.Join(p), now)
      ensures clients == old(clients)[p := Socket(id, true)]
      ensures Told(old(sent), sent, About("PARTICIPANT_CONNECTED", p), Audience(id, {p}))
    {
      hide Told, Audience, SocketsOf, TimersOf, Valid, P.AddParticipant, P.Read;
      var session := store.GetSession(id, now);
      Enlist(id, p);
      BroadcastToSession(id, About("PARTICIPANT_CONNECTED", p), {p}, now);
    }

    method Enlist(id: string, p: ParticipantId)
      requires Valid(id) && id in store.sessions
      modifies this`clients, store.Held(id)`participants, store.Held(id)`participantsConnected
      ensures Valid(id)
      ensures clients == old(clients)[p := Socket(id, true)]
      ensures View(id) == old(View(id)).(sockets := old(View(id)).sockets[p := true],
                                         record := P.AddParticipant(old(View(id)).record, p))
    {
      hide SocketsOf, TimersOf, Distinct, T.Agrees, P.AddParticipant;
      var ok := store.AddParticipant(id, p);
      SocketsOfAdded(clients, id, p);
      clients := clients[p := Socket(id, true)];
    }

    /** A participant that comes back with its reconnection token keeps its id. */
    method Reconnect(id: string, p: ParticipantId, now: int)
      requires Valid(id) && id in store.sessions
      modifies this`sent, this`clients, store.Held(id)
      ensures Valid(id) && View(id) == P.Step(manager.sdk, old(View(id)), P.Reconnect(p), now)
      ensures clients == old(clients)[p := Socket(id, true)]
      ensures Told(old(sent), sent, About("PARTICIPANT_CONNECTED", p), Audience(id, {p}))
    {
      hide Told, Audience, SocketsOf, TimersOf, Distinct, T.Agrees;
      SocketsOfAdded(clients, id, p);
      clients := clients[p := Socket(id, true)];
      BroadcastToSession(id, About("PARTICIPANT_CONNECTED", p), {p}, now);
    }

    /** A connection stops being open before its close is handled. */
    method SocketStopsBeingOpen(id: string, p: ParticipantId, now: int)
      requires Valid(id) && id in store.sessions && p in clients && clients[p].sessionId == id
      modifies this`clients
      ensures Valid(id) && View(id) == P.Step(manager.sdk, old(View(id)), P.SocketStopsBeingOpen(p), now)
      ensures clients == old(clients)[p := Socket(id, false)]
    {
      hide TimersOf, Distinct, T.Agrees;
      assert SocketsOf(clients[p := Socket(id, false)], id) == SocketsOf(clients, id)[p := false];
      clients := clients[p := Socket(id, false)];
    }

    /** The host fires an expiry timer of the session, and its callback runs. */
    method ExpiryTimerFires(id: string, t: nat, now: int)
      requires Valid(id) && id in store.sessions
      requires t in timerController.timers && timerController.timers[t].callback == T.ExpireTransaction(id)
      modifies this`sent, timerController`timers, timerController`armed, store.Held(id)
      ensures Valid(id) && P.Enabled(old(View(id)), P.ExpiryTimerFires(t))
      ensures View(id) == P.Step(manager.sdk, old(View(id)), P.ExpiryTimerFires(t), now)
      ensures timerController.View() == T.FireTimer(old(timerController.View()), t)
      ensures if P.Read(old(View(id)).record, now).status !in {P.Completed, P.TransactionExpired}
              then Told(old(sent), sent, Notice("TRANSACTION_EXPIRED"), Audience(id, {})) else sent == old(sent)
    {
      hide Told, Audience, P.Read, SocketsOf, TimersOf, Valid, P.ExpireTransaction;
      var callback := RunTimer(id, t);
      HandleTransactionExpired(callback.sessionId, now);
    }

    method RunTimer(id: string, t: nat) returns (callback: T.Callback)
      requires Valid(id) && id in store.sessions
      requires t in timerController.timers && timerController.timers[t].callback == T.ExpireTransaction(id)
      modifies timerController`timers, timerController`armed
      ensures callback == T.ExpireTransaction(id)
      ensures Valid(id) && t in old(View(id)).timers
      ensures View(id) == old(View(id)).(timers := old(View(id)).timers - {t})
      ensures timerController.View() == T.FireTimer(old(timerController.View()), t)
    {
      hide SocketsOf, Distinct;
      TimersOfRemoved(timerController.timers, armedFor, id, t);
      callback := timerController.HostFires(t);
    }

    /** `_handleSignatureSubmit`, when the session's lock has been obtained. True if the threshold is
        met and an execution is therefore queued behind the lock. */
    method HandleSignatureSubmit(id: string, p: ParticipantId, t: SignatureTuple, now: int) returns (execute: bool)
      requires Valid(id) && id in store.sessions && !View(id).executing
      modifies this`sent, store.Held(id)
      ensures Valid(id)
      ensures SignatureList(t).None? ==> View(id) == old(View(id)) && !execute
      ensures SignatureList(t).Some? ==>
                var submit, w := P.Submit(p, Canonical(t)), old(View(id));
                var outcome := P.SubmitResult(manager.sdk, w.record, p, Canonical(t), now);
                && P.Enabled(w, submit)
                && View(id) == (if outcome.Accepted? then P.ReadSession(P.Step(manager.sdk, w, submit, now), now)
                                else P.Step(manager.sdk, w, submit, now))
                && (execute <==> outcome == P.Accepted(true))
                && (outcome.Accepted? ==> ToldAccepted(old(sent), sent, p, p in clients && clients[p].open, execute, Audience(id, {})))
                && (outcome.Rejected? ==> sent == old(sent) + ToOne(p, Notice("SIGNATURE_REJECTED")))
      ensures SignatureList(t).None? ==> sent == old(sent) + ToOne(p, Notice("SIGNATURE_REJECTED"))
    {
      hide Told, ToldAccepted, Audience, SocketsOf, TimersOf, Valid, P.SubmitSignature, P.SubmitResult, Canonical;
      execute := false;
      if SignatureList(t).None? {
        SendToParticipant(p, Notice("SIGNATURE_REJECTED"));
        return;
      }
      var outcome := Submit(id, p, Canonical(t), now);
      if outcome.Rejected? {
        SendToParticipant(p, Notice("SIGNATURE_REJECTED"));
        return;
      }
      ghost var before := sent;
      SendToParticipant(p, Notice("SIGNATURE_ACCEPTED"));
      ghost var told := sent;
      P.ReadSessionTwice(View(id), now);
      BroadcastToSession(id, About("SIGNATURE_RECEIVED", p), {}, now);
      ghost var mid := sent;
      if outcome.thresholdMet {
        BroadcastToSession(id, Notice("THRESHOLD_MET"), {}, now);
        execute := true;
      }
      AcceptanceTold(before, told, mid, sent, p, p in clients && clients[p].open, execute, Audience(id, {}));
    }

    method Submit(id: string, p: ParticipantId, t: SignatureTuple, now: int) returns (outcome: P.SubmitOutcome)
      requires Valid(id) && id in store.sessions
      modifies store.Held(id)`status, store.Held(id)`signatures, store.Held(id)`participants, store.Held(id)`signaturesCollected
      ensures Valid(id) && outcome == P.SubmitResult(manager.sdk, old(View(id)).record, p, t, now)
      ensures View(id) == P.Step(manager.sdk, old(View(id)), P.Submit(p, t), now)
    {
      hide SocketsOf, TimersOf, Distinct, T.Agrees, P.SubmitSignature, P.SubmitResult;
      var result := manager.SubmitSignature(id, p, t, now);
      outcome := result.value;
    }

    /** The start of an execution, when the session's lock has been obtained. Failing before the network
        wait is told to the session. */
    method BeginExecution(id: string, now: int) returns (signedTx: SdkTransaction?)
      requires Valid(id) && id in store.sessions && !View(id).executing
      requires P.ListsNotEmpty(View(id).record.signatures)
      modifies this`sent, store.Held(id)
      ensures Valid(id) && P.Enabled(old(View(id)), P.Begin)
      ensures var after := P.Step(manager.sdk, old(View(id)), P.Begin, now);
              View(id) == if signedTx == null then P.ReadSession(after, now) else after
      ensures View(id).history.submissions ==
              old(View(id)).history.submissions
              + if signedTx == null then []
                else [P.Submission(P.Latest(old(View(id))), signedTx.bodies, signedTx.attached, now)]
      ensures if signedTx == null then Told(old(sent), sent, Notice("EXECUTION_FAILED"), Audience(id, {})) else sent == old(sent)
    {
      hide Told, Audience, SocketsOf, TimersOf, Valid, P.ListsNotEmpty, P.BeginExecution, P.Read;
      P.BeginIgnoresSurroundings(manager.sdk, View(id), now);
      signedTx := manager.BeginExecution(id, now);
      if signedTx == null {
        BroadcastToSession(id, Notice("EXECUTION_FAILED"), {}, now);
      }
    }

    /** The end of an execution, when the network has answered. */
    method FinishExecution(id: string, accepted: bool, now: int)
      requires Valid(id) && id in store.sessions && View(id).executing
      modifies this`sent, store.Held(id)
      ensures Valid(id) && P.Enabled(old(View(id)), P.Finish(accepted))
      ensures View(id) == P.ReadSession(P.Step(manager.sdk, old(View(id)), P.Finish(accepted), now), now)
      ensures Told(old(sent), sent, Notice(if accepted then "TRANSACTION_EXECUTED" else "EXECUTION_FAILED"), Audience(id, {}))
    {
      hide Told, Audience, SocketsOf, TimersOf, Valid, P.ExecutionError, P.Read;
      manager.FinishExecution(id, accepted, now);
      BroadcastToSession(id, Notice(if accepted then "TRANSACTION_EXECUTED" else "EXECUTION_FAILED"), {}, now);
    }

    /** Participant ids are generated, so one belongs to a single session. */
    ghost predicate BelongsTo(id: string, p: ParticipantId)
      reads this`clients, store`sessions, store.sessions.Values`participants
    {
      && (p in clients ==> clients[p].sessionId == id)
      && forall other :: other in store.sessions && other != id ==> p !in store.sessions[other].participants
    }

    /** What can happen to a session: sections run while nothing else executes, the network answers an
        execution, connections are of the session's own participants, and pending timers fire. */
    ghost predicate Possible(id: string, e: ServerEvent)
      requires id in store.sessions
      reads this`clients, timerController, store, store.sessions.Values
    {
      match e
      case Joins(p) => BelongsTo(id, p) && p !in store.sessions[id].participants
      case Returns(p) => BelongsTo(id, p)
      case StopsBeingOpen(p) => p in clients && clients[p].sessionId == id
      case Closes(p) => BelongsTo(id, p)
      case TimerFires(t) => t in timerController.timers && timerController.timers[t].callback == T.ExpireTransaction(id)
      case SubmitSection(_, _) => !store.sessions[id].executing
      case ExecuteSection => !store.sessions[id].executing
      case NetworkAnswers(_) => store.sessions[id].executing
      case _ => true
    }

    /** The server as a whole: whatever happens to a session is the step of the state machine for it,
        followed at most by reads; the machine's invariant is kept, and no other session is affected. */
    method Perform(id: string, e: ServerEvent, now: int) returns (ghost steps: seq<R.Timed>)
      requires Valid(id) && id in store.sessions && Possible(id, e) && I.Inv(manager.sdk, View(id))
      modifies this, timerController, store.Held(id)
      ensures Valid(id) && OthersKept(id) && I.Inv(manager.sdk, View(id))
      ensures IsRunOf(steps, e, now)
      ensures R.ValidRun(manager.sdk, old(View(id)), steps) && View(id) == R.Final(manager.sdk, old(View(id)), steps)
    {
      hide I.Inv, P.ListsNotEmpty, Valid, SocketsOf, TimersOf, P.Step, P.Enabled, R.ValidRun, R.Final;
      ghost var w := View(id);
      I.StoredListsAreNotEmpty(manager.sdk, w);
      match e {
        case ReadyMessage(_, _) => steps := OnMessage(id, e, now);
        case StatusMessage(_, _) => steps := OnMessage(id, e, now);
        case RejectMessage(_) => steps := OnMessage(id, e, now);
        case InjectMessage(_, _) => steps := OnMessage(id, e, now);
        case AnnounceMessage => steps := OnMessage(id, e, now);
        case ResetMessage => steps := OnMessage(id, e, now);
        case SubmitSection(p, tuple) => steps := OnSubmission(id, p, tuple, now);
        case ExecuteSection => steps := OnExecution(id, e, now);
        case NetworkAnswers(_) => steps := OnExecution(id, e, now);
        case TimerFires(t) => steps := OnTimer(id, t, now);
        case _ => steps := OnConnection(id, e, now);
      }
      R.RunKeepsInv(manager.sdk, w, steps);
    }

    method OnMessage(id: string, e: ServerEvent, now: int) returns (ghost steps: seq<R.Timed>)
      requires Valid(id) && id in store.sessions
      requires e.ReadyMessage? || e.StatusMessage? || e.RejectMessage? || e.InjectMessage? || e.AnnounceMessage? || e.ResetMessage?
      modifies this`sent, this`armedFor, timerController, store.Held(id)
      ensures Valid(id) && OthersKept(id)
      ensures IsRunOf(steps, e, now)
      ensures R.ValidRun(manager.sdk, old(View(id)), steps) && View(id) == R.Final(manager.sdk, old(View(id)), steps)
    {
      hide Told, Announced, ToldReady, Audience, View, SocketsOf, TimersOf, Valid, Disarmed, ExpiryArmed, SameTimersElsewhere, SameEpochs, P.Step;
      OthersAreElsewhere(id);
      ghost var w, s, timer := View(id), timerController.View(), store.sessions[id].expirationTimerId;
      ghost var event := P.Reset;
      NothingElsewhere(id);
      match e {
        case ReadyMessage(p, publicKey) => event := P.Ready(p, publicKey); HandleParticipantReady(id, p, publicKey, now);
        case StatusMessage(p, status) => event := P.StatusUpdate(p, status); HandleStatusUpdate(id, p, status, now);
        case RejectMessage(p) => event := P.Reject(p); HandleTransactionRejected(id, p, now);
        case InjectMessage(tx, life) =>
          var timerId := HandleTransactionInject(id, tx, life, now);
          event := P.Inject(tx, life, timerId);
        case AnnounceMessage => event := P.AnnounceSchedule; HandleScheduleAnnounce(id, now);
        case ResetMessage => HandleResetTransaction(id, now);
      }
      steps := [R.Timed(event, now)];
      OneStep(manager.sdk, w, event, now);
      KeepsOthers(id);
    }

    method OnConnection(id: string, e: ServerEvent, now: int) returns (ghost steps: seq<R.Timed>)
      requires Valid(id) && id in store.sessions && Possible(id, e)
      requires e.Joins? || e.Returns? || e.StopsBeingOpen? || e.Closes?
      modifies this`sent, this`clients, store.Held(id)
      ensures Valid(id) && OthersKept(id)
      ensures IsRunOf(steps, e, now)
      ensures R.ValidRun(manager.sdk, old(View(id)), steps) && View(id) == R.Final(manager.sdk, old(View(id)), steps)
    {
      hide Told, Audience, View, SocketsOf, TimersOf, Valid, SameConnectionsElsewhere, SameTimersElsewhere, SameEpochs, P.Step;
      OthersAreElsewhere(id);
      NothingElsewhere(id);
      ConnectionElsewhere(clients, id, e.p);
      ghost var w := View(id);
      ghost var event := P.Reset;
      match e {
        case Joins(p) => CanJoin(id, p); event := P.Join(p); Join(id, p, now);
        case Returns(p) => event := P.Reconnect(p); Reconnect(id, p, now);
        case StopsBeingOpen(p) => event := P.SocketStopsBeingOpen(p); SocketStopsBeingOpen(id, p, now);
        case Closes(p) => event := P.Close(p); HandleClose(id, p, now);
      }
      steps := [R.Timed(event, now)];
      OneStep(manager.sdk, w, event, now);
      KeepsOthers(id);
    }

    method OnTimer(id: string, t: nat, now: int) returns (ghost steps: seq<R.Timed>)
      requires Valid(id) && id in store.sessions && Possible(id, TimerFires(t))
      modifies this`sent, timerController`timers, timerController`armed, store.Held(id)
      ensures Valid(id) && OthersKept(id)
      ensures IsRunOf(steps, TimerFires(t), now)
      ensures R.ValidRun(manager.sdk, old(View(id)), steps) && View(id) == R.Final(manager.sdk, old(View(id)), steps)
    {
      hide Told, Audience, View, SocketsOf, TimersOf, Valid, SameTimersElsewhere, SameEpochs, T.FireTimer, P.Step;
      OthersAreElsewhere(id);
      NothingElsewhere(id);
      FiredElsewhere(timerController.View(), id, t);
      ghost var w := View(id);
      ExpiryTimerFires(id, t, now);
      steps := [R.Timed(P.ExpiryTimerFires(t), now)];
      OneStep(manager.sdk, w, P.ExpiryTimerFires(t), now);
      KeepsOthers(id);
    }

    lemma CanJoin(id: string, p: ParticipantId)
      requires id in store.sessions && p !in store.sessions[id].participants
      ensures P.Enabled(View(id), P.Join(p))
    {
    }

    method OnSubmission(id: string, p: ParticipantId, tuple: SignatureTuple, now: int) returns (ghost steps: seq<R.Timed>)
      requires Valid(id) && id in store.sessions && Possible(id, SubmitSection(p, tuple))
      modifies this`sent, store.Held(id)
      ensures Valid(id) && OthersKept(id)
      ensures IsRunOf(steps, SubmitSection(p, tuple), now)
      ensures R.ValidRun(manager.sdk, old(View(id)), steps) && View(id) == R.Final(manager.sdk, old(View(id)), steps)
    {
      hide ToldAccepted, Audience, SocketsOf, TimersOf, Valid, SameConnectionsElsewhere, SameTimersElsewhere, SameEpochs, Canonical;
      hide R.ValidRun, R.Final, P.Step, P.SubmitResult, P.ReadSession;
      OthersAreElsewhere(id);
      NothingElsewhere(id);
      ghost var w := View(id);
      ghost var event := P.Submit(p, if SignatureList(tuple).Some? then Canonical(tuple) else tuple);
      OneOrTwoSteps(manager.sdk, w, event, now);
      var execute := HandleSignatureSubmit(id, p, tuple, now);
      steps := if SignatureList(tuple).None? then [] else
        [R.Timed(event, now)]
        + if P.SubmitResult(manager.sdk, w.record, p, Canonical(tuple), now).Accepted? then [R.Timed(P.ReadEvent, now)] else [];
      KeepsOthers(id);
    }

    method OnExecution(id: string, e: ServerEvent, now: int) returns (ghost steps: seq<R.Timed>)
      requires Valid(id) && id in store.sessions && Possible(id, e) && P.ListsNotEmpty(View(id).record.signatures)
      requires e.ExecuteSection? || e.NetworkAnswers?
      modifies this`sent, store.Held(id)
      ensures Valid(id) && OthersKept(id)
      ensures IsRunOf(steps, e, now)
      ensures R.ValidRun(manager.sdk, old(View(id)), steps) && View(id) == R.Final(manager.sdk, old(View(id)), steps)
    {
      hide Told, Audience, SocketsOf, TimersOf, Valid, SameConnectionsElsewhere, SameTimersElsewhere, SameEpochs;
      hide P.ListsNotEmpty, R.ValidRun, R.Final, P.Step, P.ReadSession;
      OthersAreElsewhere(id);
      NothingElsewhere(id);
      ghost var w := View(id);
      ghost var event := if e.ExecuteSection? then P.Begin else P.Finish(e.accepted);
      ghost var announced := true;
      OneOrTwoSteps(manager.sdk, w, event, now);
      match e {
        case ExecuteSection =>
          var signedTx := BeginExecution(id, now);
          announced := signedTx == null;
        case NetworkAnswers(accepted) => FinishExecution(id, accepted, now);
      }
      steps := [R.Timed(event, now)] + if announced then [R.Timed(P.ReadEvent, now)] else [];
      KeepsOthers(id);
    }

    /** Nothing of the connections, timers and epochs of other sessions changes when they all stay as they
        are, when the session's own timer is disarmed, and when it is armed anew. */
    lemma NothingElsewhere(id: string)
      requires Valid(id) && id in store.sessions
      ensures timerController.Valid()
      ensures SameConnectionsElsewhere(clients, clients, id) && SameEpochs(timerController.nextId, armedFor, armedFor)
      ensures var s := timerController.View();
              var disarmed := Disarmed(s, store.sessions[id].expirationTimerId);
              && SameTimersElsewhere(s, s, id) && SameTimersElsewhere(s, disarmed, id)
              && SameTimersElsewhere(s, ExpiryArmed(disarmed, id), id)
    {
      hide T.Agrees, Distinct, T.Remove;
      var s, timer := timerController.View(), store.sessions[id].expirationTimerId;
      DisarmedElsewhere(s, id, timer);
      if timer.Some? { T.RemoveAgrees(s, {timer.value}); }
      ArmedElsewhere(s, Disarmed(s, timer), id);
    }

    lemma OpenToParticipant(id: string, p: ParticipantId)
      requires Valid(id) && id in store.sessions && p in store.sessions[id].participants
      ensures P.SocketOpen(View(id), p) <==> p in clients && clients[p].open
    {
      hide Distinct, T.Agrees;
    }

    /** The sockets a session sees reach exactly its participants with an open connection. */
    lemma DeliveredToReachable(id: string)
      requires Valid(id) && id in store.sessions
      ensures Reachable(store.sessions[id].participants.Keys) ==
              set p | p in View(id).record.participants && P.SocketOpen(View(id), p)
    {
      hide Distinct, T.Agrees;
    }
  }

  /** The same message once to each of `recipients`. */
  ghost predicate IsBroadcast(messages: seq<Sent>, message: Message, recipients: set<ParticipantId>) {
    && |messages| == |recipients|
    && (forall i :: 0 <= i < |messages| ==> messages[i].message == message && messages[i].to in recipients)
    && (forall p :: p in recipients ==> Sent(p, message) in messages)
  }

  /** The recipients, and nobody else, were sent the message once, and nothing else was sent. */
  ghost predicate Told(before: seq<Sent>, after: seq<Sent>, message: Message, recipients: set<ParticipantId>) {
    before <= after && IsBroadcast(after[|before|..], message, recipients)
  }

  /** What was sent is the same message, to the recipients and to nobody else, to none of them twice. */
  lemma ToldExactly(before: seq<Sent>, after: seq<Sent>, message: Message, recipients: set<ParticipantId>)
    requires Told(before, after, message, recipients)
    ensures forall i :: |before| <= i < |after| ==> after[i].message == message && after[i].to in recipients
    ensures forall p :: p in recipients ==> Sent(p, message) in after[|before|..]
    ensures forall i, j :: |before| <= i < j < |after| ==> after[i].to != after[j].to
  {
    var added := after[|before|..];
    NobodyTwice(added, message, recipients);
    forall i | |before| <= i < |after| ensures after[i] == added[i - |before|] { }
  }

  lemma NobodyTwice(messages: seq<Sent>, message: Message, recipients: set<ParticipantId>)
    requires IsBroadcast(messages, message, recipients)
    ensures forall i, j :: 0 <= i < j < |messages| ==> messages[i].to != messages[j].to
  {
    var to := seq(|messages|, i requires 0 <= i < |messages| => messages[i].to);
    AsManyAsDistinct(to);
    forall p ensures p in to <==> p in recipients {
      if p in recipients { var k :| 0 <= k < |messages| && messages[k] == Sent(p, message); assert to[k] == p; }
    }
    assert (set p | p in to) == recipients;
    forall i, j | 0 <= i < j < |messages| ensures messages[i].to != messages[j].to {
      assert to[i] != to[j];
    }
  }

  lemma {:induction false} AsManyAsDistinct(s: seq<ParticipantId>)
    ensures |set p | p in s| <= |s|
    ensures |set p | p in s| == |s| ==> forall i, j :: 0 <= i < j < |s| ==> s[i] != s[j]
  {
    if s != [] {
      AsManyAsDistinct(s[1..]);
      var rest := set p | p in s[1..];
      assert (set p | p in s) == rest + {s[0]};
    }
  }

  /** The recipients were told each of these participants' statuses once, and nothing else was sent. */
  ghost predicate ToldStatuses(before: seq<Sent>, after: seq<Sent>, changed: set<ParticipantId>,
                               statuses: map<ParticipantId, P.Participant>, recipients: set<ParticipantId>)
  {
    && before <= after
    && |after| == |before| + |changed| * |recipients|
    && (forall p, r :: p in changed && p in statuses && r in recipients ==>
          Sent(r, StatusChanged(p, statuses[p].status)) in after[|before|..])
    && (forall i :: |before| <= i < |after| ==>
          && after[i].to in recipients && after[i].message.StatusChanged? && after[i].message.p in changed * statuses.Keys
          && after[i].message.status == statuses[after[i].message.p].status)
  }

  /** The statuses of the participants that were reset, then the news. */
  ghost predicate Announced(before: seq<Sent>, after: seq<Sent>, changed: set<ParticipantId>,
                            statuses: map<ParticipantId, P.Participant>, news: Message, recipients: set<ParticipantId>)
  {
    exists mid :: ToldStatuses(before, mid, changed, statuses, recipients) && Told(mid, after, news, recipients)
  }

  /** A participant that is ready is sent the transaction in flight, if there is one. */
  ghost predicate CaughtUp(before: seq<Sent>, after: seq<Sent>, p: ParticipantId, open: bool, r: P.Record) {
    after == before + if open && r.frozenTransaction.Some? && (r.status == P.TransactionReceived || r.status == P.Signing)
                      then [Sent(p, TransactionReceived(r.frozenTransaction.value))] else []
  }

  /** The session is told who is ready, who is then caught up. */
  ghost predicate ToldReady(before: seq<Sent>, after: seq<Sent>, p: ParticipantId, open: bool, r: P.Record,
                            recipients: set<ParticipantId>)
  {
    exists mid :: Told(before, mid, About("PARTICIPANT_READY", p), recipients) && CaughtUp(mid, after, p, open, r)
  }

  lemma ReadyThenCaughtUp(before: seq<Sent>, mid: seq<Sent>, after: seq<Sent>, p: ParticipantId, open: bool, r: P.Record,
                          recipients: set<ParticipantId>)
    requires Told(before, mid, About("PARTICIPANT_READY", p), recipients) && CaughtUp(mid, after, p, open, r)
    ensures ToldReady(before, after, p, open, r, recipients)
  {
  }

  /** The signer is told of the acceptance, then the session of the signature and of a met threshold. */
  ghost predicate ToldAccepted(before: seq<Sent>, after: seq<Sent>, p: ParticipantId, open: bool, thresholdMet: bool,
                               recipients: set<ParticipantId>)
  {
    var told := before + if open then [Sent(p, Notice("SIGNATURE_ACCEPTED"))] else [];
    if thresholdMet then
      exists mid :: Told(told, mid, About("SIGNATURE_RECEIVED", p), recipients) && Told(mid, after, Notice("THRESHOLD_MET"), recipients)
    else Told(told, after, About("SIGNATURE_RECEIVED", p), recipients)
  }

  /** Who is reset when this participant rejects. */
  function Rejectors(participants: map<ParticipantId, P.Participant>, p: ParticipantId): set<ParticipantId> {
    set q | q in participants && (q == p || IsStale(participants[q]))
  }

  lemma RejectorsAreStale(r: P.Record, p: ParticipantId)
    ensures StaleParticipants(P.UpdateParticipantStatus(r, p, "rejected").participants) == Rejectors(r.participants, p)
  {
  }

  lemma NoStatusTold(before: seq<Sent>, statuses: map<ParticipantId, P.Participant>, recipients: set<ParticipantId>)
    ensures ToldStatuses(before, before, {}, statuses, recipients)
  {
  }

  lemma OneMoreStatus(before: seq<Sent>, mid: seq<Sent>, after: seq<Sent>, done: set<ParticipantId>,
                      statuses: map<ParticipantId, P.Participant>, p: ParticipantId, recipients: set<ParticipantId>)
    requires ToldStatuses(before, mid, done, statuses, recipients) && p in statuses && p !in done
    requires Told(mid, after, StatusChanged(p, statuses[p].status), recipients)
    ensures ToldStatuses(before, after, done + {p}, statuses, recipients)
  {
    assert after[|before|..] == mid[|before|..] + after[|mid|..];
    assert (|done| + 1) * |recipients| == |done| * |recipients| + |recipients|;
    forall i | |mid| <= i < |after|
      ensures after[i].to in recipients && after[i].message == StatusChanged(p, statuses[p].status)
    {
      assert after[i] == after[|mid|..][i - |mid|];
    }
  }

  lemma AcceptanceTold(before: seq<Sent>, told: seq<Sent>, mid: seq<Sent>, after: seq<Sent>, p: ParticipantId, open: bool,
                       thresholdMet: bool, recipients: set<ParticipantId>)
    requires told == before + if open then [Sent(p, Notice("SIGNATURE_ACCEPTED"))] else []
    requires Told(told, mid, About("SIGNATURE_RECEIVED", p), recipients)
    requires if thresholdMet then Told(mid, after, Notice("THRESHOLD_MET"), recipients) else after == mid
    ensures ToldAccepted(before, after, p, open, thresholdMet, recipients)
  {
  }

  lemma NobodyReached(message: Message)
    ensures IsBroadcast([], message, {})
  {
  }

  lemma OneMoreReached(messages: seq<Sent>, message: Message, reached: set<ParticipantId>, p: ParticipantId)
    requires IsBroadcast(messages, message, reached) && p !in reached
    ensures IsBroadcast(messages + [Sent(p, message)], message, reached + {p})
  {
  }

  lemma SocketsOfRemoved(clients: map<ParticipantId, Socket>, id: string, p: ParticipantId)
    ensures SocketsOf(clients - {p}, id) == SocketsOf(clients, id) - {p}
  {
  }

  lemma SocketsOfAdded(clients: map<ParticipantId, Socket>, id: string, p: ParticipantId)
    ensures SocketsOf(clients[p := Socket(id, true)], id) == SocketsOf(clients, id)[p := true]
  {
  }

  lemma TimersOfRemoved(timers: map<nat, T.Timer>, armedFor: map<nat, nat>, id: string, t: nat)
    ensures TimersOf(timers - {t}, armedFor, id) == TimersOf(timers, armedFor, id) - {t}
  {
  }

  lemma ArmedIsSet(s: T.State, id: string)
    ensures ExpiryArmed(s, id) == T.SetTimer(s, T.Timeout, "tx-expiry-" + id, T.ExpireTransaction(id))
  {
  }

  /** What arming changes, for the session whose timer it is. */
  lemma ArmedTimers(s: T.State, armedFor: map<nat, nat>, id: string, epoch: nat)
    requires T.Agrees(s)
    ensures s.isShuttingDown ==> ExpiryArmed(s, id) == s
    ensures !s.isShuttingDown ==>
              var after := ExpiryArmed(s, id);
              && after.nextId == s.nextId + 1
              && TimersOf(after.timers, armedFor[s.nextId := epoch], id) == TimersOf(s.timers, armedFor, id)[s.nextId := epoch]
              && s.nextId in after.timers && after.timers[s.nextId].callback == T.ExpireTransaction(id)
              && (forall t :: t in after.timers && after.timers[t].callback == T.ExpireTransaction(id) ==>
                    after.timers[t].kind == T.Timeout || (t in s.timers && s.timers[t] == after.timers[t]))
  {
    hide TimersOf;
    if !s.isShuttingDown {
      TimersOfAdded(s.timers, armedFor, id, s.nextId, ExpiryArmed(s, id).timers[s.nextId], epoch);
    }
  }

  lemma TimersOfAdded(timers: map<nat, T.Timer>, armedFor: map<nat, nat>, id: string, t: nat, timer: T.Timer, epoch: nat)
    requires t !in timers && timer.callback == T.ExpireTransaction(id)
    ensures TimersOf(timers[t := timer], armedFor[t := epoch], id) == TimersOf(timers, armedFor, id)[t := epoch]
  {
  }

  lemma OneStep(sdk: Sdk, w: P.Session, e: P.Event, now: int)
    requires P.Enabled(w, e)
    ensures R.ValidRun(sdk, w, [R.Timed(e, now)]) && R.Final(sdk, w, [R.Timed(e, now)]) == P.Step(sdk, w, e, now)
  {
    hide P.Step, P.Enabled;
    assert [R.Timed(e, now)][1..] == [];
  }

  lemma OneOrTwoSteps(sdk: Sdk, w: P.Session, e: P.Event, now: int)
    requires P.Enabled(w, e)
    ensures R.ValidRun(sdk, w, []) && R.Final(sdk, w, []) == w
    ensures var one := [R.Timed(e, now)] + [];
            R.ValidRun(sdk, w, one) && R.Final(sdk, w, one) == P.Step(sdk, w, e, now)
    ensures var two := [R.Timed(e, now)] + [R.Timed(P.ReadEvent, now)];
            R.ValidRun(sdk, w, two) && R.Final(sdk, w, two) == P.ReadSession(P.Step(sdk, w, e, now), now)
  {
    OneStep(sdk, w, e, now);
    assert P.Enabled(P.Step(sdk, w, e, now), P.ReadEvent);
    assert P.Step(sdk, P.Step(sdk, w, e, now), P.ReadEvent, now) == P.ReadSession(P.Step(sdk, w, e, now), now);
    hide P.Step, P.Enabled, P.ReadSession;
    assert [R.Timed(e, now)] + [] == [R.Timed(e, now)];
    R.RunOneMore(sdk, w, [R.Timed(e, now)], R.Timed(P.ReadEvent, now));
  }
}
