/** The per-session promise chain that serialises signature submissions and executions
    (`_signatureLocks` in server/SigningSessionManager.js). Every submission and every execution is a
    section; it replaces the session's tail promise by its own and runs once the tail it found has
    settled. Sessions have separate chains, so one chain is modelled. */
module SignatureLocks {
  import opened Wrappers

  datatype Kind = Submission | Execution

  datatype Phase = Waiting | Running | Ended(threw: bool)

  /** `awaited` is the section whose tail this one found in the map; `nested` is the execution this
      submission itself awaits, when auto-execution is on. */
  datatype Section = Section(kind: Kind, awaited: Option<nat>, phase: Phase, nested: Option<nat>)

  /** The sections of a session in order of arrival, and the session's entry in the map: the section
      whose tail was stored last. */
  datatype Chain = Chain(sections: seq<Section>, tail: Option<nat>)

  datatype Event =
    | Arrive(kind: Kind)
    | Start(index: nat)
    | AwaitNestedExecution(index: nat)
    | End(index: nat, threw: bool)

  predicate IsEnded(c: Chain, k: nat) {
    k < |c.sections| && c.sections[k].phase.Ended?
  }

  /** A tail settles when the tail before it has settled and its own section has ended; a section that
      threw settles its tail all the same. */
  predicate TailSettled(c: Chain, k: nat) {
    && IsEnded(c, k)
    && (c.sections[k].awaited.Some? ==> c.sections[k].awaited.value < k && TailSettled(c, c.sections[k].awaited.value))
  }

  predicate Enabled(c: Chain, e: Event) {
    match e
    case Arrive(_) => true
    case Start(k) =>
      && k < |c.sections| && c.sections[k].phase.Waiting?
      && (c.sections[k].awaited.Some? ==> TailSettled(c, c.sections[k].awaited.value))
    case AwaitNestedExecution(k) =>
      k < |c.sections| && c.sections[k].phase.Running? && c.sections[k].kind.Submission? && c.sections[k].nested.None?
    case End(k, _) =>
      && k < |c.sections| && c.sections[k].phase.Running?
      && (c.sections[k].nested.Some? ==> IsEnded(c, c.sections[k].nested.value))
  }

  function Append(c: Chain, kind: Kind): Chain {
    Chain(c.sections + [Section(kind, c.tail, Waiting, None)], Some(|c.sections|))
  }

  function SetPhase(c: Chain, k: nat, phase: Phase): Chain
    requires k < |c.sections|
  {
    c.(sections := c.sections[k := c.sections[k].(phase := phase)])
  }

  function Step(c: Chain, e: Event): Chain
    requires Enabled(c, e)
  {
    match e
    case Arrive(kind) => Append(c, kind)
    case Start(k) => SetPhase(c, k, Running)
    case AwaitNestedExecution(k) =>
      var c' := Append(c, Execution);
      c'.(sections := c'.sections[k := c'.sections[k].(nested := Some(|c.sections|))])
    case End(k, threw) => SetPhase(c, k, Ended(threw))
  }

  /** Each section awaits the one before it, and the map holds the last. */
  predicate Chained(c: Chain) {
    && c.tail == (if c.sections == [] then None else Some(|c.sections| - 1))
    && forall k :: 0 <= k < |c.sections| ==> c.sections[k].awaited == if k == 0 then None else Some(k - 1)
  }

  predicate AllEndedBefore(c: Chain, k: nat) {
    forall j :: 0 <= j < k ==> IsEnded(c, j)
  }

  /** A section that has started found every earlier one ended. */
  predicate InOrder(c: Chain) {
    forall k :: 0 <= k < |c.sections| && !c.sections[k].phase.Waiting? ==> AllEndedBefore(c, k)
  }

  predicate NestedAreLater(c: Chain) {
    forall k :: 0 <= k < |c.sections| && c.sections[k].nested.Some? ==> k < c.sections[k].nested.value < |c.sections|
  }

  predicate Inv(c: Chain) {
    Chained(c) && InOrder(c) && NestedAreLater(c)
  }

  const INITIAL := Chain([], None)

  /** A settled tail means every section up to it has ended. */
  lemma {:induction false} SettledIffAllEnded(c: Chain, k: nat)
    requires Chained(c) && k < |c.sections|
    ensures TailSettled(c, k) <==> AllEndedBefore(c, k + 1)
  {
    if k > 0 {
      SettledIffAllEnded(c, k - 1);
    }
  }

  lemma StillEnded(c: Chain, c': Chain, k: nat)
    requires AllEndedBefore(c, k)
    requires forall j :: 0 <= j < |c.sections| ==> j < |c'.sections| && (c.sections[j].phase.Ended? ==> c'.sections[j].phase.Ended?)
    ensures AllEndedBefore(c', k)
  {
    forall j | 0 <= j < k ensures IsEnded(c', j) {
      assert IsEnded(c, j);
    }
  }

  lemma StepKeepsInv(c: Chain, e: Event)
    requires Inv(c) && Enabled(c, e)
    ensures Inv(Step(c, e))
  {
    var c' := Step(c, e);
    forall k | 0 <= k < |c'.sections| && !c'.sections[k].phase.Waiting? ensures AllEndedBefore(c', k) {
      if e.Start? && e.index == k {
        if k > 0 {
          SettledIffAllEnded(c, k - 1);
        }
        assert AllEndedBefore(c, k);
      }
      StillEnded(c, c', k);
    }
  }

  predicate ValidRun(c: Chain, run: seq<Event>)
    decreases |run|
  {
    run != [] ==> Enabled(c, run[0]) && ValidRun(Step(c, run[0]), run[1..])
  }

  function Final(c: Chain, run: seq<Event>): Chain
    requires ValidRun(c, run)
    decreases |run|
  {
    if run == [] then c else Final(Step(c, run[0]), run[1..])
  }

  lemma {:induction false} RunKeepsInv(c: Chain, run: seq<Event>)
    requires Inv(c) && ValidRun(c, run)
    ensures Inv(Final(c, run))
    decreases |run|
  {
    hide Inv, Enabled, Step;
    if run != [] {
      StepKeepsInv(c, run[0]);
      RunKeepsInv(Step(c, run[0]), run[1..]);
    }
  }

  /** In every run: first in, first out, and mutual exclusion. A section that has started finds every
      earlier one over, so no two sections of a session ever run at the same time. */
  lemma OneAtATimeInOrder(run: seq<Event>, j: nat, k: nat)
    requires ValidRun(INITIAL, run)
    requires j < k < |Final(INITIAL, run).sections| && !Final(INITIAL, run).sections[k].phase.Waiting?
    ensures Final(INITIAL, run).sections[j].phase.Ended?
  {
    RunKeepsInv(INITIAL, run);
    assert IsEnded(Final(INITIAL, run), j);
  }

  predicate NothingNested(c: Chain) {
    forall k :: 0 <= k < |c.sections| ==> c.sections[k].nested.None?
  }

  /** The first section that is not over can always move: it is waiting with its turn come, or it is
      running and can end, whether or not earlier ones threw. */
  lemma FirstUnendedCanMove(c: Chain, k: nat)
    requires Chained(c) && NothingNested(c)
    requires k < |c.sections| && !IsEnded(c, k) && AllEndedBefore(c, k)
    ensures if c.sections[k].phase.Waiting? then Enabled(c, Start(k)) else forall threw :: Enabled(c, End(k, threw))
  {
    if k > 0 {
      SettledIffAllEnded(c, k - 1);
    }
  }

  /** How much is left to do on the sections up to `k`. */
  function Remaining(c: Chain, k: nat): nat
    requires k < |c.sections|
  {
    (match c.sections[k].phase { case Waiting => 2 case Running => 1 case Ended(_) => 0 })
    + if k == 0 then 0 else Remaining(c, k - 1)
  }

  lemma {:induction false} RemainingDrops(c: Chain, k: nat, i: nat, phase: Phase)
    requires i < |c.sections| && k < |c.sections|
    requires (c.sections[i].phase.Waiting? && phase.Running?) || (c.sections[i].phase.Running? && phase.Ended?)
    ensures Remaining(SetPhase(c, i, phase), k) == Remaining(c, k) - if i <= k then 1 else 0
  {
    if k > 0 {
      RemainingDrops(c, k - 1, i, phase);
    }
  }

  /** Starting or ending a section up to `k`. */
  predicate IsMoveUpTo(e: Event, k: nat) {
    (e.Start? || e.End?) && e.index <= k
  }

  function MovesUpTo(run: seq<Event>, k: nat): nat {
    if run == [] then 0 else (if IsMoveUpTo(run[0], k) then 1 else 0) + MovesUpTo(run[1..], k)
  }

  predicate CanMoveUpTo(c: Chain, k: nat) {
    exists i | 0 <= i <= k :: Enabled(c, Start(i)) || Enabled(c, End(i, false)) || Enabled(c, End(i, true))
  }

  lemma {:induction false} RemainingUnchanged(c: Chain, c': Chain, k: nat)
    requires k < |c.sections| <= |c'.sections|
    requires forall j :: 0 <= j <= k ==> c'.sections[j].phase == c.sections[j].phase
    ensures Remaining(c', k) == Remaining(c, k)
  {
    if k > 0 {
      RemainingUnchanged(c, c', k - 1);
    }
  }

  lemma StepUsesRemaining(c: Chain, e: Event, k: nat)
    requires k < |c.sections| && Enabled(c, e)
    ensures k < |Step(c, e).sections|
    ensures Remaining(Step(c, e), k) + (if IsMoveUpTo(e, k) then 1 else 0) == Remaining(c, k)
  {
    match e
    case Start(i) => RemainingDrops(c, k, i, Running);
    case End(i, threw) => RemainingDrops(c, k, i, Ended(threw));
    case _ => RemainingUnchanged(c, Step(c, e), k);
  }

  /** In every run, whatever arrives and whatever throws, each start or end of a section up to `k` takes
      one from what is left to do on them. */
  lemma {:induction false} EveryMoveCounts(c: Chain, run: seq<Event>, k: nat)
    requires ValidRun(c, run) && k < |c.sections|
    ensures k < |Final(c, run).sections|
    ensures Remaining(Final(c, run), k) + MovesUpTo(run, k) == Remaining(c, k)
    decreases |run|
  {
    hide Step, Enabled, Remaining;
    if run != [] {
      StepUsesRemaining(c, run[0], k);
      EveryMoveCounts(Step(c, run[0]), run[1..], k);
    }
  }

  predicate NeverNests(run: seq<Event>) {
    forall i :: 0 <= i < |run| ==> !run[i].AwaitNestedExecution?
  }

  lemma {:induction false} RunStaysUnnested(c: Chain, run: seq<Event>)
    requires ValidRun(c, run) && NothingNested(c) && NeverNests(run)
    ensures NothingNested(Final(c, run))
    decreases |run|
  {
    if run != [] {
      RunStaysUnnested(Step(c, run[0]), run[1..]);
    }
  }

  /** A section has ended exactly when nothing up to it can move. */
  lemma EndedIffNothingMoves(c: Chain, k: nat)
    requires Inv(c) && NothingNested(c) && k < |c.sections|
    ensures IsEnded(c, k) <==> !CanMoveUpTo(c, k)
  {
    if IsEnded(c, k) {
      assert AllEndedBefore(c, k);
      forall i | 0 <= i <= k
        ensures !Enabled(c, Start(i)) && !Enabled(c, End(i, false)) && !Enabled(c, End(i, true))
      {
        assert IsEnded(c, i);
      }
    } else {
      var i := FirstUnended(c, k);
      FirstUnendedCanMove(c, i);
      assert Enabled(c, Start(i)) || Enabled(c, End(i, false));
    }
  }

  lemma {:induction false} EndedIffNothingRemains(c: Chain, k: nat)
    requires k < |c.sections|
    ensures Remaining(c, k) == 0 <==> AllEndedBefore(c, k + 1)
  {
    if k > 0 {
      EndedIffNothingRemains(c, k - 1);
    }
    assert AllEndedBefore(c, k + 1) <==> AllEndedBefore(c, k) && IsEnded(c, k);
  }

  /** A move that is possible stays possible until it is taken. */
  lemma MoveStaysPossible(c: Chain, e: Event, i: nat, threw: bool)
    requires Inv(c) && Enabled(c, e) && !e.AwaitNestedExecution?
    requires !((e.Start? || e.End?) && e.index == i)
    ensures Enabled(c, Start(i)) ==> Enabled(Step(c, e), Start(i))
    ensures Enabled(c, End(i, threw)) ==> Enabled(Step(c, e), End(i, threw))
  {
    var c' := Step(c, e);
    StepKeepsInv(c, e);
    if Enabled(c, Start(i)) && i > 0 {
      SettledIffAllEnded(c, i - 1);
      StillEnded(c, c', i);
      SettledIffAllEnded(c', i - 1);
    }
  }

  /** Progress, with auto-execution off. In every run, with any arrivals and any mixture of sections that
      throw and that do not, the sections up to a queued one make no more moves than were left to them;
      and the queued one has ended exactly when they have made them all, which is when none of them can
      move. So a run in which a possible move is always taken in the end runs every queued section. */
  lemma EveryQueuedSectionRuns(c: Chain, run: seq<Event>, k: nat)
    requires Inv(c) && NothingNested(c) && k < |c.sections|
    requires ValidRun(c, run) && NeverNests(run)
    ensures MovesUpTo(run, k) <= Remaining(c, k)
    ensures IsEnded(Final(c, run), k) <==> MovesUpTo(run, k) == Remaining(c, k)
    ensures IsEnded(Final(c, run), k) <==> !CanMoveUpTo(Final(c, run), k)
  {
    hide Step, Enabled, Remaining;
    RunKeepsInv(c, run);
    RunStaysUnnested(c, run);
    EveryMoveCounts(c, run, k);
    EndedIffNothingMoves(Final(c, run), k);
    EndedIffNothingRemains(Final(c, run), k);
    assert IsEnded(Final(c, run), k) ==> AllEndedBefore(Final(c, run), k);
  }

  /** From every state some schedule ends a queued section. */
  lemma SomeScheduleEnds(c: Chain, k: nat, threw: bool) returns (run: seq<Event>)
    requires Inv(c) && NothingNested(c) && k < |c.sections|
    ensures ValidRun(c, run) && IsEnded(Final(c, run), k)
    ensures forall i :: 0 <= i < |run| ==> run[i].Start? || run[i].End?
    decreases Remaining(c, k)
  {
    if IsEnded(c, k) {
      return [];
    }
    var i := FirstUnended(c, k);
    var e := NextMove(c, i, k, threw);
    var rest := SomeScheduleEnds(Step(c, e), k, threw);
    run := [e] + rest;
    assert run[1..] == rest;
  }

  lemma NextMove(c: Chain, i: nat, k: nat, threw: bool) returns (e: Event)
    requires Inv(c) && NothingNested(c)
    requires i <= k < |c.sections| && !IsEnded(c, i) && AllEndedBefore(c, i)
    ensures Enabled(c, e) && (e.Start? || e.End?)
    ensures Inv(Step(c, e)) && NothingNested(Step(c, e)) && |Step(c, e).sections| == |c.sections|
    ensures Remaining(Step(c, e), k) < Remaining(c, k)
  {
    FirstUnendedCanMove(c, i);
    e := if c.sections[i].phase.Waiting? then Start(i) else End(i, threw);
    RemainingDrops(c, k, i, if c.sections[i].phase.Waiting? then Running else Ended(threw));
    StepKeepsInv(c, e);
  }

  lemma FirstUnended(c: Chain, k: nat) returns (i: nat)
    requires k < |c.sections| && !IsEnded(c, k)
    ensures i <= k && !IsEnded(c, i) && AllEndedBefore(c, i)
  {
    i := k;
    if !AllEndedBefore(c, k) {
      var j :| 0 <= j < k && !IsEnded(c, j);
      i := FirstUnended(c, j);
    }
  }

  /** A submission that awaits an execution of its own session, with all behind it still queued. */
  predicate Stuck(c: Chain, k: nat) {
    && k < |c.sections| && c.sections[k].phase.Running? && c.sections[k].nested.Some?
    && forall n :: k < n < |c.sections| ==> c.sections[n].phase.Waiting?
  }

  lemma NestingSticks(c: Chain, k: nat)
    requires Inv(c) && Enabled(c, AwaitNestedExecution(k))
    ensures Stuck(Step(c, AwaitNestedExecution(k)), k)
  {
    forall n | k < n < |c.sections| ensures c.sections[n].phase.Waiting? {
      assert AllEndedBefore(c, n) ==> IsEnded(c, k);
    }
  }

  lemma SettledEnds(c: Chain, i: nat, k: nat)
    requires Chained(c) && k <= i < |c.sections|
    ensures TailSettled(c, i) ==> IsEnded(c, k)
  {
    SettledIffAllEnded(c, i);
  }

  lemma StaysStuck(c: Chain, k: nat, e: Event)
    requires Inv(c) && Stuck(c, k) && Enabled(c, e)
    ensures Stuck(Step(c, e), k)
  {
    if e.Start? && k < e.index {
      SettledEnds(c, e.index - 1, k);
    }
  }

  /** With auto-execution on, the submission that meets the threshold waits for an execution that is
      queued behind it: in no continuation does it end, and no later section of its session ever
      starts. */
  lemma {:induction false} AutoExecuteDeadlocks(c: Chain, k: nat, run: seq<Event>)
    requires Inv(c) && Stuck(c, k) && ValidRun(c, run)
    ensures Stuck(Final(c, run), k)
    decreases |run|
  {
    hide Stuck, Enabled, Step, Inv;
    if run != [] {
      StepKeepsInv(c, run[0]);
      StaysStuck(c, k, run[0]);
      AutoExecuteDeadlocks(Step(c, run[0]), k, run[1..]);
    }
  }
}
