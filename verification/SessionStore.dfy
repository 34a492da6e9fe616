/** The in-memory session store (server/SessionStore.js): the live session objects and the operations
    that rewrite them in place, each proved against its transition function. */
module SessionStore {
  import opened Wrappers
  import opened SignatureVerifier
  import P = SessionProtocol

  /** A session as the store holds it. */
  class LiveSession {
    const terms: P.Terms
    var status: P.Status
    var frozenTransaction: Option<P.FrozenTx>
    var scheduled: bool
    var transactionReceivedAt: Option<int>
    var expirationTimerId: Option<nat>
    var participants: map<P.ParticipantId, P.Participant>
    var signatures: map<string, P.SignatureEntry>
    var participantsConnected: int
    var participantsReady: nat
    var signaturesCollected: nat
    // What the theorems speak of, kept up to date beside the fields: whether an execution holds the
    // session's lock, a bound below every timer id yet to be given out, and the history.
    ghost var executing: bool
    ghost var nextTimerId: nat
    ghost var history: P.History

    ghost function View(): P.Record
      reads this
    {
      P.Record(terms, status, frozenTransaction, scheduled, transactionReceivedAt, expirationTimerId, participants,
               signatures, P.Stats(participantsConnected, participantsReady, signaturesCollected))
    }

    /** The session on its own, without the sockets and timers around it. */
    ghost function Alone(): P.Session
      reads this
    {
      P.Session(View(), executing, map[], map[], nextTimerId, history)
    }

    constructor (terms: P.Terms, tx: Option<P.FrozenTx>, scheduled: bool, ghost nextTimerId: nat)
      ensures Alone() == P.Created(terms, tx, scheduled, nextTimerId)
    {
      this.terms := terms;
      status := if tx.Some? then P.TransactionReceived else P.Waiting;
      frozenTransaction := tx;
      this.scheduled := scheduled;
      transactionReceivedAt, expirationTimerId := None, None;
      participants, signatures := map[], map[];
      participantsConnected, participantsReady, signaturesCollected := 0, 0, 0;
      executing, this.nextTimerId := false, nextTimerId;
      history := P.Created(terms, tx, scheduled, nextTimerId).history;
    }

    /** Take in a transaction. */
    method Receive(tx: P.FrozenTx, now: int)
      modifies this`frozenTransaction, this`status, this`transactionReceivedAt
      ensures View() == old(View()).(frozenTransaction := Some(tx), status := P.TransactionReceived,
                                     transactionReceivedAt := Some(now))
    {
      frozenTransaction := Some(tx);
      status := P.TransactionReceived;
      transactionReceivedAt := Some(now);
    }

    /** What expiring and resetting a transaction have in common. */
    method ForgetTransaction()
      modifies this`frozenTransaction, this`signatures, this`signaturesCollected
      ensures View() == old(View()).(frozenTransaction := None, signatures := map[],
                                     stats := old(View()).stats.(signaturesCollected := 0))
    {
      frozenTransaction := None;
      signatures := map[];
      signaturesCollected := 0;
    }

    /** Give the transaction up and wait for another. */
    method Abandon()
      modifies this`expirationTimerId, this`frozenTransaction, this`transactionReceivedAt, this`status
      ensures View() == old(View()).(expirationTimerId := None, frozenTransaction := None, transactionReceivedAt := None,
                                     status := P.Waiting)
    {
      expirationTimerId := None;
      frozenTransaction := None;
      transactionReceivedAt := None;
      status := P.Waiting;
    }

    /** Walks the participants and resets those whose status was about the previous transaction. */
    method ResetStaleParticipants() returns (changed: set<P.ParticipantId>)
      modifies this`participants
      ensures participants == map id | id in old(participants) :: P.ResetParticipant(old(participants)[id])
      ensures changed == StaleParticipants(old(participants))
    {
      hide P.ResetParticipant, IsStale;
      changed := {};
      ghost var before: map<P.ParticipantId, P.Participant> := participants;
      var ids: set<P.ParticipantId> := participants.Keys;
      while ids != {}
        invariant ids <= before.Keys && participants.Keys == before.Keys
        invariant forall p :: p in before ==>
                    participants[p] == if p in ids then before[p] else P.ResetParticipant(before[p])
        invariant changed == StaleParticipants(before) - ids
        decreases |ids|
      {
        var p: P.ParticipantId :| p in ids;
        var participant, stale := ResetIfStale(participants[p]);
        participants := participants[p := participant];
        if stale { changed := changed + {p}; }
        ids := ids - {p};
      }
    }

    /** The clean-up of one session; true if it is to be deleted. */
    method CleanUp(now: int) returns (delete: bool)
      modifies this`status
      ensures View() == P.Cleanup(old(View()), now)
      ensures delete <==> Deletes(old(View()), now)
    {
      delete := false;
      if terms.expiresAt.Some? && terms.expiresAt.value < now && status != P.Completed {
        status := P.Expired;
        delete := terms.expiresAt.value + DELETE_AFTER_MS < now;
      }
    }
  }

  const DELETE_AFTER_MS: int := 300000

  predicate Deletes(r: P.Record, now: int) {
    P.PastExpiry(r, now - DELETE_AFTER_MS) && P.PastExpiry(r, now) && r.status != P.Completed
  }

  lemma DeletesExactly(now: int)
    ensures forall r :: Deletes(r, now) <==>
              r.terms.expiresAt.Some? && r.terms.expiresAt.value + 300000 < now && r.status != P.Completed
  {
  }

  function StaleParticipants(participants: map<P.ParticipantId, P.Participant>): set<P.ParticipantId> {
    set p | p in participants && IsStale(participants[p])
  }

  /** Visiting `id` drops it from a map exactly if it is doomed. */
  lemma DropOne<T>(all: map<string, T>, doomed: set<string>, unvisited: set<string>, id: string)
    requires id in unvisited
    ensures all - (doomed - (unvisited - {id}))
              == if id in doomed then (all - (doomed - unvisited)) - {id} else all - (doomed - unvisited)
  {
    assert doomed - (unvisited - {id}) == if id in doomed then doomed - unvisited + {id} else doomed - unvisited;
  }

  predicate IsStale(p: P.Participant) {
    p.status == "signed" || p.status == "rejected"
  }

  method ResetIfStale(p: P.Participant) returns (participant: P.Participant, stale: bool)
    ensures participant == P.ResetParticipant(p) && (stale <==> IsStale(p))
  {
    participant, stale := p, IsStale(p);
    if stale {
      participant := participant.(publicKey := None, status := if p.keysLoaded then "ready" else "connected");
    }
  }

  /** The `timeout` given to `createSession`, in milliseconds: absent, `null`, or a number. */
  datatype Timeout = Absent | Unbounded | Millis(ms: int)

  /** No two ids share an object. */
  ghost predicate Distinct(sessions: map<string, LiveSession>) {
    forall a, b :: a in sessions && b in sessions && a != b ==> sessions[a] != sessions[b]
  }

  /** What `||` leaves of a number with a default. */
  type NonZero = x: int | x != 0 witness 1

  class Store {
    var sessions: map<string, LiveSession>
    const maxSessions: NonZero
    const defaultTimeout: NonZero

    ghost predicate Valid()
      reads this`sessions
    {
      Distinct(sessions)
    }

    /** The object behind an id, if there is one. */
    ghost function Held(id: string): set<LiveSession>
      reads this`sessions
    {
      if id in sessions then {sessions[id]} else {}
    }

    ghost function View(id: string): P.Record
      requires id in sessions
      reads this`sessions, Held(id)
    {
      sessions[id].View()
    }

    /** Limits that are not given, null or zero become 100 sessions and 30 minutes. */
    constructor (maxSessions: int, defaultTimeout: Timeout)
      ensures Valid() && sessions == map[]
      ensures this.maxSessions == if maxSessions != 0 then maxSessions else 100
      ensures this.defaultTimeout == if defaultTimeout.Millis? && defaultTimeout.ms != 0 then defaultTimeout.ms else 1800000
    {
      sessions := map[];
      this.maxSessions := if maxSessions != 0 then maxSessions else 100;
      this.defaultTimeout := if defaultTimeout.Millis? && defaultTimeout.ms != 0 then defaultTimeout.ms else 1800000;
    }

    /** `null` or zero means the session never expires on its own. */
    function ComputeExpiresAt(timeout: Timeout, now: int): (r: Option<int>)
      ensures r.Some? ==> r.value != now
      ensures timeout.Unbounded? || timeout == Millis(0) ==> r.None?
      ensures timeout.Millis? && timeout.ms != 0 ==> r == Some(now + timeout.ms)
      ensures timeout.Absent? ==> r == Some(now + defaultTimeout)
    {
      var effective := if timeout.Absent? then Millis(defaultTimeout) else timeout;
      if effective.Millis? && effective.ms != 0 then Some(now + effective.ms) else None
    }

    /** Fails only when the store is full. `id` is freshly generated. */
    method CreateSession(id: string, tx: Option<P.FrozenTx>, threshold: int, eligible: seq<string>, scheduled: bool,
                         timeout: Timeout, now: int, ghost nextTimerId: nat) returns (s: LiveSession?)
      requires Valid() && id !in sessions
      modifies this
      ensures Valid()
      ensures s == null <==> |old(sessions)| >= maxSessions
      ensures s == null ==> sessions == old(sessions)
      ensures s != null ==>
                && fresh(s) && sessions == old(sessions)[id := s]
                && s.Alone() == P.Created(P.Terms(threshold, eligible, ComputeExpiresAt(timeout, now)), tx, scheduled, nextTimerId)
    {
      if |sessions| >= maxSessions {
        return null;
      }
      s := new LiveSession(P.Terms(threshold, eligible, ComputeExpiresAt(timeout, now)), tx, scheduled, nextTimerId);
      sessions := sessions[id := s];
    }

    method GetSession(id: string, now: int) returns (s: LiveSession?)
      modifies Held(id)`status
      ensures s == if id in sessions then sessions[id] else null
      ensures id in sessions ==> View(id) == P.Read(old(View(id)), now)
    {
      if id !in sessions { return null; }
      s := sessions[id];
      if s.terms.expiresAt.Some? && s.terms.expiresAt.value < now {
        s.status := P.Expired;
      }
    }

    method UpdateStatus(id: string, status: P.Status)
      modifies Held(id)`status
      ensures id in sessions ==> View(id) == P.UpdateStatus(old(View(id)), status)
    {
      if id !in sessions { return; }
      var session := sessions[id];
      var written := status;
      if !P.IsValidTransition(session.status, status) {
        if status == P.Active {
          written := P.Signing;
        }
      }
      session.status := written;
    }

    /** False where the session does not exist. `participantId` is freshly generated. */
    method AddParticipant(id: string, participantId: P.ParticipantId) returns (ok: bool)
      modifies Held(id)`participants, Held(id)`participantsConnected
      ensures ok <==> id in sessions
      ensures ok ==> View(id) == P.AddParticipant(old(View(id)), participantId)
      ensures ok ==> sessions[id].participants.Keys == old(sessions[id].participants.Keys) + {participantId}
    {
      if id !in sessions { return false; }
      var session := sessions[id];
      session.participants := session.participants[participantId := P.Participant("connected", false, None, None)];
      session.participantsConnected := session.participantsConnected + 1;
      ok := true;
    }

    method UpdateParticipantStatus(id: string, participantId: P.ParticipantId, status: string)
      modifies Held(id)`participants
      ensures id in sessions ==> View(id) == P.UpdateParticipantStatus(old(View(id)), participantId, status)
      ensures id in sessions ==> sessions[id].participants.Keys == old(sessions[id].participants.Keys)
    {
      if id !in sessions { return; }
      var session := sessions[id];
      if participantId in session.participants {
        var participant := session.participants[participantId];
        session.participants := session.participants[participantId := participant.(status := status)];
      }
    }

    /** False where it throws: no such session or participant, or no signature supplied. */
    method AddSignature(id: string, participantId: P.ParticipantId, t: SignatureTuple, now: int) returns (ok: bool)
      modifies Held(id)`signatures, Held(id)`participants, Held(id)`signaturesCollected
      ensures ok <==> id in sessions && participantId in old(View(id)).participants && SignatureList(t).Some?
      ensures ok ==> View(id) == P.AddSignature(old(View(id)), participantId, t.publicKey, SignatureList(t).value, now)
      ensures ok ==> sessions[id].participants.Keys == old(sessions[id].participants.Keys)
      ensures !ok && id in sessions ==> View(id) == old(View(id))
    {
      if id !in sessions { return false; }
      var session := sessions[id];
      if participantId !in session.participants { return false; }
      var sigList := SignatureList(t);
      if sigList.None? { return false; }
      var entry := P.SignatureEntry(t.publicKey, sigList.value, sigList.value[0], participantId, now);
      session.signatures := session.signatures[t.publicKey := entry];
      var participant := session.participants[participantId];
      session.participants :=
        session.participants[participantId := participant.(publicKey := Some(t.publicKey), status := "signed")];
      session.signaturesCollected := |session.signatures|;
      ok := true;
    }

    /** Returns who was reset. */
    method ClearTransactionState(id: string) returns (changed: set<P.ParticipantId>)
      modifies Held(id)`signatures, Held(id)`participants, Held(id)`signaturesCollected
      ensures id in sessions ==> View(id) == P.ClearTransactionState(old(View(id)))
      ensures id in sessions ==> sessions[id].participants.Keys == old(sessions[id].participants.Keys)
      ensures id in sessions ==> forall p :: p in changed <==>
                && p in old(View(id)).participants
                && (old(View(id)).participants[p].status == "signed" || old(View(id)).participants[p].status == "rejected")
      ensures id !in sessions ==> changed == {}
    {
      changed := {};
      if id !in sessions { return; }
      var session := sessions[id];
      session.signatures := map[];
      session.signaturesCollected := 0;
      changed := session.ResetStaleParticipants();
    }

    method RemoveParticipant(id: string, participantId: P.ParticipantId)
      modifies Held(id)`participants, Held(id)`participantsConnected, Held(id)`participantsReady
      ensures id in sessions ==> View(id) == P.RemoveParticipant(old(View(id)), participantId)
      ensures id in sessions ==> sessions[id].participants.Keys <= old(sessions[id].participants.Keys)
    {
      if id !in sessions { return; }
      var session := sessions[id];
      if participantId !in session.participants { return; }
      var participant := session.participants[participantId];
      var wasReady := participant.status == "ready" || participant.status == "signed";
      if wasReady && session.participantsReady > 0 {
        session.participantsReady := session.participantsReady - 1;
      }
      if participant.status !in {"signed", "rejected"} {
        session.participants := session.participants - {participantId};
        session.participantsConnected := session.participantsConnected - 1;
      } else {
        session.participants := session.participants[participantId :=
          participant.(previousStatus := Some(participant.status), status := "disconnected")];
      }
    }

    method IsThresholdMet(id: string) returns (met: bool)
      ensures met <==> id in sessions && P.IsThresholdMet(View(id))
    {
      met := id in sessions && |sessions[id].signatures| >= sessions[id].terms.threshold;
    }

    /** False where it throws: no such session or participant. */
    method SetParticipantReady(id: string, participantId: P.ParticipantId, publicKey: Option<string>) returns (ok: bool)
      modifies Held(id)`participants, Held(id)`participantsReady
      ensures ok <==> id in sessions && participantId in old(View(id)).participants
      ensures ok ==> View(id) == P.SetParticipantReady(old(View(id)), participantId, publicKey)
      ensures ok ==> sessions[id].participants.Keys == old(sessions[id].participants.Keys)
      ensures !ok && id in sessions ==> View(id) == old(View(id))
    {
      if id !in sessions || participantId !in sessions[id].participants { return false; }
      var session := sessions[id];
      var participant := session.participants[participantId];
      if participant.status != "ready" {
        session.participantsReady := session.participantsReady + 1;
      }
      participant := participant.(keysLoaded := true, status := "ready");
      if publicKey.Some? && publicKey.value != "" {
        participant := participant.(publicKey := publicKey);
      }
      session.participants := session.participants[participantId := participant];
      ok := true;
    }

    /** False where it throws: no such session, or one that is not waiting. */
    method InjectTransaction(id: string, tx: P.FrozenTx, now: int) returns (ok: bool)
      modifies Held(id)`frozenTransaction, Held(id)`status, Held(id)`transactionReceivedAt
      ensures ok <==> id in sessions && old(View(id)).status == P.Waiting
      ensures ok ==> View(id) == old(View(id)).(frozenTransaction := Some(tx), status := P.TransactionReceived,
                                                transactionReceivedAt := Some(now))
      ensures !ok && id in sessions ==> View(id) == old(View(id))
    {
      if id !in sessions || sessions[id].status != P.Waiting { return false; }
      sessions[id].Receive(tx, now);
      ok := true;
    }

    /** Mark every session past its expiry, except completed ones, and delete those five minutes past
        it. Every kept id keeps its object. */
    method CleanUpExpiredSessions(now: int)
      requires Valid()
      modifies this`sessions, sessions.Values`status
      ensures Valid()
      ensures forall id :: id in old(sessions) ==> old(sessions)[id].View() == P.Cleanup(old(sessions[id].View()), now)
      ensures forall id :: id in sessions <==>
                && id in old(sessions)
                && !(old(sessions[id].View()).terms.expiresAt.Some? && old(sessions[id].View()).terms.expiresAt.value + 300000 < now
                     && old(sessions[id].View()).status != P.Completed)
      ensures forall id :: id in sessions ==> sessions[id] == old(sessions)[id]
    {
      DeletesExactly(now);
      hide P.Cleanup, Deletes, LiveSession.View;
      ghost var before: map<string, LiveSession> := sessions;
      ghost var views: map<string, P.Record> := map id | id in sessions :: sessions[id].View();
      ghost var doomed: set<string> := set id | id in sessions && Deletes(views[id], now);
      var ids: set<string> := sessions.Keys;
      while ids != {}
        invariant ids <= before.Keys && Distinct(before)
        invariant sessions == before - (doomed - ids)
        invariant forall other :: other in ids ==> before[other].View() == views[other]
        invariant forall other :: other in before.Keys - ids ==> before[other].View() == P.Cleanup(views[other], now)
        decreases ids
      {
        var id: string :| id in ids;
        label sweep:
        var delete := CleanUpOne(id, now);
        forall other | other in before && other != id ensures before[other].View() == old@sweep(before[other].View()) {
          assert before[other] != before[id];
        }
        DropOne(before, doomed, ids, id);
        ids := ids - {id};
      }
    }

    /** The body of the clean-up loop. */
    method CleanUpOne(id: string, now: int) returns (delete: bool)
      requires Valid() && id in sessions
      modifies this`sessions, Held(id)`status
      ensures Valid()
      ensures old(sessions)[id].View() == P.Cleanup(old(sessions[id].View()), now)
      ensures delete <==> Deletes(old(sessions[id].View()), now)
      ensures sessions == if delete then old(sessions) - {id} else old(sessions)
    {
      delete := sessions[id].CleanUp(now);
      if delete { sessions := sessions - {id}; }
    }
  }
}
