/** The timer registry (shared/TimerController.js) together with the host that runs its timers. */
module TimerController {
  import opened Wrappers
  import opened Text

  datatype Kind = Timeout | Interval

  datatype Callback = ExpireTransaction(sessionId: string) | Task(task: string)

  datatype Timer = Timer(kind: Kind, handle: nat, name: string, callback: Callback)

  /** The registry's own fields, and the host's armed timers with the next handle it will give out. */
  datatype State = State(
    timers: map<nat, Timer>, nextId: nat, isShuttingDown: bool, armed: set<nat>, nextHandle: nat)

  datatype Event =
    | Set(kind: Kind, name: string, callback: Callback)
    | Clear(id: nat)
    | ClearByPrefix(prefix: string)
    | ClearAll
    | Fire(id: nat)

  function Decimal(n: nat): string {
    (if n < 10 then "" else Decimal(n / 10)) + ["0123456789"[n % 10]]
  }

  /** A timer set without a name is named after its kind and id. */
  function NameOf(kind: Kind, name: string, id: nat): string {
    if name != "" then name else (if kind.Timeout? then "timeout-" else "interval-") + Decimal(id)
  }

  function SetTimer(s: State, kind: Kind, name: string, callback: Callback): State {
    if s.isShuttingDown then s
    else State(s.timers[s.nextId := Timer(kind, s.nextHandle, NameOf(kind, name, s.nextId), callback)], s.nextId + 1, false,
               s.armed + {s.nextHandle}, s.nextHandle + 1)
  }

  /** Forget these timers and disarm them at the host. */
  function Remove(s: State, ids: set<nat>): State {
    s.(timers := s.timers - ids, armed := s.armed - set id | id in ids && id in s.timers :: s.timers[id].handle)
  }

  function Matching(s: State, prefix: string): set<nat> {
    set id | id in s.timers && s.timers[id].name != "" && StartsWith(s.timers[id].name, prefix)
  }

  /** A timeout's own callback forgets it as it fires; an interval stays armed. */
  function FireTimer(s: State, id: nat): State
    requires id in s.timers
  {
    if s.timers[id].kind.Timeout? then Remove(s, {id}) else s
  }

  /** The host fires only what is armed. */
  predicate Enabled(s: State, e: Event) {
    e.Fire? ==> e.id in s.timers && s.timers[e.id].handle in s.armed
  }

  function Step(s: State, e: Event): State
    requires Enabled(s, e)
  {
    match e
    case Set(kind, name, callback) => SetTimer(s, kind, name, callback)
    case Clear(id) => Remove(s, {id})
    case ClearByPrefix(prefix) => Remove(s, Matching(s, prefix))
    case ClearAll => Remove(s, s.timers.Keys).(isShuttingDown := true)
    case Fire(id) => FireTimer(s, id)
  }

  /** The host's armed timers are exactly the handles in the registry, one registry entry each. */
  predicate Agrees(s: State) {
    && s.armed == (set id | id in s.timers :: s.timers[id].handle)
    && (forall i, j :: i in s.timers && j in s.timers && s.timers[i].handle == s.timers[j].handle ==> i == j)
    && s.nextId > 0
    && (forall id :: id in s.timers ==> 0 < id < s.nextId && s.timers[id].handle < s.nextHandle)
    && (s.isShuttingDown ==> s.timers == map[])
  }

  const INITIAL := State(map[], 1, false, {}, 0)

  lemma RemoveAgrees(s: State, ids: set<nat>)
    requires Agrees(s)
    ensures Agrees(Remove(s, ids))
  {
    var s' := Remove(s, ids);
    forall h | h in s'.armed ensures h in set id | id in s'.timers :: s'.timers[id].handle {
      var id :| id in s.timers && s.timers[id].handle == h;
      assert id in s'.timers;
    }
  }

  lemma SetAgrees(s: State, kind: Kind, name: string, callback: Callback)
    requires Agrees(s)
    ensures Agrees(SetTimer(s, kind, name, callback))
  {
    var s' := SetTimer(s, kind, name, callback);
    if !s.isShuttingDown {
      assert s.nextId in s'.timers && s'.timers[s.nextId].handle == s.nextHandle;
      assert forall id :: id in s.timers ==> id in s'.timers && s'.timers[id] == s.timers[id];
    }
  }

  lemma StepAgrees(s: State, e: Event)
    requires Agrees(s) && Enabled(s, e)
    ensures Agrees(Step(s, e))
  {
    match e
    case Set(kind, name, callback) => SetAgrees(s, kind, name, callback);
    case Clear(id) => RemoveAgrees(s, {id});
    case ClearByPrefix(prefix) => RemoveAgrees(s, Matching(s, prefix));
    case ClearAll =>
      RemoveAgrees(s, s.timers.Keys);
      assert s.timers - s.timers.Keys == map[];
    case Fire(id) => RemoveAgrees(s, {id});
  }

  predicate ValidRun(s: State, run: seq<Event>)
    decreases |run|
  {
    run != [] ==> Enabled(s, run[0]) && ValidRun(Step(s, run[0]), run[1..])
  }

  function Final(s: State, run: seq<Event>): State
    requires ValidRun(s, run)
    decreases |run|
  {
    if run == [] then s else Final(Step(s, run[0]), run[1..])
  }

  /** In every run the host and the registry agree. */
  lemma {:induction false} RunAgrees(s: State, run: seq<Event>)
    requires Agrees(s) && ValidRun(s, run)
    ensures Agrees(Final(s, run))
    decreases |run|
  {
    if run != [] {
      StepAgrees(s, run[0]);
      RunAgrees(Step(s, run[0]), run[1..]);
    }
  }

  lemma {:induction false} StepOnlyAllocates(s: State, e: Event)
    requires Agrees(s) && Enabled(s, e)
    ensures var s' := Step(s, e);
            && s.nextId <= s'.nextId && s.nextHandle <= s'.nextHandle
            && (forall h :: h in s'.armed && h < s.nextHandle ==> h in s.armed)
            && (forall id :: id in s'.timers && id < s.nextId ==> id in s.timers && s'.timers[id] == s.timers[id])
            && (s.isShuttingDown ==> s'.isShuttingDown)
  {
  }

  /** A handle that is not armed any more, because its timer was cleared or has fired, is never armed
      again; an id that has been given out is never given to another timer; and once everything was
      cleared for shutdown nothing is ever armed again. */
  lemma {:induction false} DisarmedForever(s: State, run: seq<Event>)
    requires Agrees(s) && ValidRun(s, run)
    ensures var s' := Final(s, run);
            && s.nextId <= s'.nextId && s.nextHandle <= s'.nextHandle
            && (forall h :: h in s'.armed && h < s.nextHandle ==> h in s.armed)
            && (forall id :: id in s'.timers && id < s.nextId ==> id in s.timers && s'.timers[id] == s.timers[id])
            && (s.isShuttingDown ==> s'.isShuttingDown && s'.armed == {})
    decreases |run|
  {
    if run != [] {
      StepAgrees(s, run[0]);
      StepOnlyAllocates(s, run[0]);
      DisarmedForever(Step(s, run[0]), run[1..]);
    } else if s.isShuttingDown {
      assert s.armed == {};
    }
  }

  /** A timer that was cleared never fires: after `Clear(id)` no run contains a firing of `id`. */
  lemma ClearedNeverFires(s: State, id: nat, run: seq<Event>, i: nat)
    requires Agrees(s) && id < s.nextId
    requires i < |run| && ValidRun(Remove(s, {id}), run)
    ensures run[i] != Fire(id)
  {
    RemoveAgrees(s, {id});
    PrefixIsValid(Remove(s, {id}), run, i);
    DisarmedForever(Remove(s, {id}), run[..i]);
  }

  lemma {:induction false} PrefixIsValid(s: State, run: seq<Event>, i: nat)
    requires i < |run| && ValidRun(s, run)
    ensures ValidRun(s, run[..i]) && Enabled(Final(s, run[..i]), run[i])
    decreases |run|
  {
    if i > 0 {
      assert run[..i][1..] == run[1..][..i - 1];
      PrefixIsValid(Step(s, run[0]), run[1..], i - 1);
    }
  }

  /** A timer set while the registry is not shutting down gets a new id and is armed under a handle of its
      own; after shutdown nothing is set. */
  lemma SetRegisters(s: State, kind: Kind, name: string, callback: Callback)
    requires Agrees(s)
    ensures var s' := Step(s, Set(kind, name, callback));
            if s.isShuttingDown then s' == s
            else
              && s.nextId !in s.timers && s'.timers.Keys == s.timers.Keys + {s.nextId}
              && s'.timers[s.nextId].kind == kind && s'.timers[s.nextId].callback == callback
              && (name != "" ==> s'.timers[s.nextId].name == name)
              && s'.timers[s.nextId].handle !in s.armed && s'.armed == s.armed + {s'.timers[s.nextId].handle}
              && (forall id :: id in s.timers ==> s'.timers[id] == s.timers[id])
  {
  }

  /** A timeout fires at most once in any run; an interval stays pending as it fires. */
  lemma TimeoutFiresOnce(s: State, run: seq<Event>, i: nat, j: nat)
    requires Agrees(s) && ValidRun(s, run) && i < j < |run|
    requires run[i].Fire? && run[j] == run[i]
    ensures ValidRun(s, run[..i]) && run[i].id in Final(s, run[..i]).timers
    ensures Final(s, run[..i]).timers[run[i].id].kind == Interval
  {
    PrefixIsValid(s, run, i);
    RunAgrees(s, run[..i]);
    if Final(s, run[..i]).timers[run[i].id].kind == Timeout {
      SuffixIsValid(s, run, i);
      assert run[i..][0] == run[i] && run[i..][1..] == run[i + 1..];
      ClearedNeverFires(Final(s, run[..i]), run[i].id, run[i + 1..], j - i - 1);
    }
  }

  lemma {:induction false} SuffixIsValid(s: State, run: seq<Event>, i: nat)
    requires i <= |run| && ValidRun(s, run)
    ensures ValidRun(s, run[..i]) && ValidRun(Final(s, run[..i]), run[i..])
    decreases |run|
  {
    if i > 0 {
      assert run[..i][1..] == run[1..][..i - 1] && run[i..] == run[1..][i - 1..];
      SuffixIsValid(Step(s, run[0]), run[1..], i - 1);
    } else {
      assert run[0..] == run;
    }
  }

  /** Clearing by prefix removes a timer exactly if its name begins with the prefix. */
  lemma MatchingExactly(s: State, prefix: string, id: nat)
    ensures id in Matching(s, prefix) <==>
            id in s.timers && s.timers[id].name != "" && exists rest :: s.timers[id].name == prefix + rest
  {
    if id in s.timers && StartsWith(s.timers[id].name, prefix) {
      assert s.timers[id].name == prefix + s.timers[id].name[|prefix|..];
    }
  }

  /** The value a text of decimal digits stands for. */
  function ValueOf(digits: string): int {
    if digits == "" then 0 else ValueOf(digits[..|digits| - 1]) * 10 + digits[|digits| - 1] as int - '0' as int
  }

  /** A timer without a name is named after its kind and id, the id in decimal. */
  lemma {:induction false} NamedAfterId(id: nat)
    ensures NameOf(Timeout, "", id) == "timeout-" + Decimal(id) && NameOf(Interval, "", id) == "interval-" + Decimal(id)
    ensures ValueOf(Decimal(id)) == id
  {
    if id >= 10 {
      NamedAfterId(id / 10);
      assert Decimal(id)[..|Decimal(id)| - 1] == Decimal(id / 10);
    } else {
      assert Decimal(id)[..|Decimal(id)| - 1] == "";
    }
  }

  class Controller {
    var timers: map<nat, Timer>
    var nextId: nat
    var isShuttingDown: bool
    // The host's side.
    var armed: set<nat>
    var nextHandle: nat

    ghost function View(): State
      reads this
    {
      State(timers, nextId, isShuttingDown, armed, nextHandle)
    }

    ghost predicate Valid()
      reads this
    {
      Agrees(View())
    }

    constructor ()
      ensures Valid() && View() == INITIAL
    {
      timers, nextId, isShuttingDown := map[], 1, false;
      armed, nextHandle := {}, 0;
    }

    method HostArm() returns (handle: nat)
      modifies this`armed, this`nextHandle
      ensures handle == old(nextHandle) && armed == old(armed) + {handle} && nextHandle == handle + 1
    {
      handle := nextHandle;
      armed, nextHandle := armed + {handle}, nextHandle + 1;
    }

    method HostDisarm(handle: nat)
      modifies this`armed
      ensures armed == old(armed) - {handle}
    {
      armed := armed - {handle};
    }

    method SetTimeout(name: string, callback: Callback) returns (id: Option<nat>)
      requires Valid()
      modifies this
      ensures Valid() && View() == SetTimer(old(View()), Timeout, name, callback)
      ensures id == if old(isShuttingDown) then None else Some(old(nextId))
    {
      SetAgrees(View(), Timeout, name, callback);
      if isShuttingDown { return None; }
      var newId := nextId;
      nextId := nextId + 1;
      var handle := HostArm();
      timers := timers[newId := Timer(Timeout, handle, NameOf(Timeout, name, newId), callback)];
      id := Some(newId);
    }

    method SetInterval(name: string, callback: Callback) returns (id: Option<nat>)
      requires Valid()
      modifies this
      ensures Valid() && View() == SetTimer(old(View()), Interval, name, callback)
      ensures id == if old(isShuttingDown) then None else Some(old(nextId))
    {
      SetAgrees(View(), Interval, name, callback);
      if isShuttingDown { return None; }
      var newId := nextId;
      nextId := nextId + 1;
      var handle := HostArm();
      timers := timers[newId := Timer(Interval, handle, NameOf(Interval, name, newId), callback)];
      id := Some(newId);
    }

    /** Both kinds of timer share the host's handle space. */
    method Clear(id: nat) returns (found: bool)
      requires Valid()
      modifies this`timers, this`armed
      ensures Valid() && View() == Remove(old(View()), {id})
      ensures found <==> id in old(timers)
    {
      RemoveAgrees(View(), {id});
      if id !in timers {
        assert timers - {id} == timers;
        return false;
      }
      HostDisarm(timers[id].handle);
      timers := timers - {id};
      found := true;
    }

    /** Clear every timer whose name begins with `prefix`, and say how many there were. */
    method ClearNamed(prefix: string) returns (count: nat)
      requires Valid()
      modifies this`timers, this`armed
      ensures Valid() && View() == Remove(old(View()), Matching(old(View()), prefix))
      ensures count == |Matching(old(View()), prefix)|
    {
      hide Agrees, Remove, StartsWith;
      ghost var before := View();
      ghost var matching := Matching(before, prefix);
      count := 0;
      var ids := timers.Keys;
      ghost var cleared: set<nat> := {};
      RemoveNothing(before);
      while ids != {}
        invariant Valid() && View() == Remove(before, cleared)
        invariant cleared <= matching && count == |cleared|
        invariant ids <= before.timers.Keys && ids !! cleared
        invariant matching <= cleared + ids
        decreases |ids|
      {
        var id :| id in ids;
        ids := ids - {id};
        KeptByRemove(before, cleared, id);
        var timer := timers[id];
        if timer.name != "" && StartsWith(timer.name, prefix) {
          var found := Clear(id);
          RemoveOneMore(before, cleared, id);
          cleared := cleared + {id};
          count := count + 1;
        }
      }
      assert cleared == matching;
    }

    /** The numbers of timers by kind, which add up to all of them. */
    method GetStats() returns (timeouts: nat, intervals: nat, total: nat)
      ensures timeouts == |OfKind(timers, timers.Keys, Timeout)|
      ensures intervals == |OfKind(timers, timers.Keys, Interval)|
      ensures total == timeouts + intervals == |timers|
    {
      hide OfKind;
      timeouts, intervals := 0, 0;
      var ids := timers.Keys;
      ghost var seen: set<nat> := {};
      OfKindNone(timers);
      while ids != {}
        invariant seen !! ids && seen + ids == timers.Keys
        invariant timeouts == |OfKind(timers, seen, Timeout)| && intervals == |OfKind(timers, seen, Interval)|
        invariant timeouts + intervals == |seen|
        decreases |ids|
      {
        var id :| id in ids;
        OfKindOneMore(timers, seen, id);
        ids, seen := ids - {id}, seen + {id};
        if timers[id].kind.Timeout? {
          timeouts := timeouts + 1;
        } else {
          intervals := intervals + 1;
        }
      }
      assert seen == timers.Keys;
      total := timeouts + intervals;
    }

    method ClearEverything() returns (count: nat)
      requires Valid()
      modifies this
      ensures Valid() && View() == Step(old(View()), ClearAll)
      ensures armed == {} && count == |old(timers)|
    {
      hide Agrees, Handles;
      ghost var before := View();
      ClearAllResult(before);
      isShuttingDown := true;
      count := |timers|;
      var ids := timers.Keys;
      while ids != {}
        invariant ids <= timers.Keys
        invariant View() == before.(isShuttingDown := true, armed := armed)
        invariant armed == Handles(timers, ids)
        decreases |ids|
      {
        var id :| id in ids;
        HandlesWithout(before, ids, id);
        HostDisarm(timers[id].handle);
        ids := ids - {id};
      }
      NoHandles(timers);
      timers := map[];
    }

    /** The host fires a timer; the caller then runs its callback. */
    method HostFires(id: nat) returns (callback: Callback)
      requires Valid() && id in timers && timers[id].handle in armed
      modifies this`timers, this`armed
      ensures Valid() && View() == FireTimer(old(View()), id)
      ensures callback == old(timers)[id].callback
    {
      RemoveAgrees(View(), {id});
      callback := timers[id].callback;
      if timers[id].kind.Timeout? {
        HostDisarm(timers[id].handle);
        timers := timers - {id};
      }
    }
  }

  ghost function OfKind(timers: map<nat, Timer>, ids: set<nat>, kind: Kind): set<nat> {
    set id | id in ids && id in timers && timers[id].kind == kind
  }

  lemma OfKindNone(timers: map<nat, Timer>)
    ensures forall kind :: OfKind(timers, {}, kind) == {}
  {
  }

  lemma OfKindOneMore(timers: map<nat, Timer>, ids: set<nat>, id: nat)
    requires id in timers && id !in ids
    ensures forall kind :: |OfKind(timers, ids + {id}, kind)| == |OfKind(timers, ids, kind)| + if timers[id].kind == kind then 1 else 0
  {
    forall kind
      ensures |OfKind(timers, ids + {id}, kind)| == |OfKind(timers, ids, kind)| + if timers[id].kind == kind then 1 else 0
    {
      assert OfKind(timers, ids + {id}, kind) ==
             if timers[id].kind == kind then OfKind(timers, ids, kind) + {id} else OfKind(timers, ids, kind);
    }
  }

  ghost function Handles(timers: map<nat, Timer>, ids: set<nat>): set<nat> {
    set id | id in ids && id in timers :: timers[id].handle
  }

  lemma NoHandles(timers: map<nat, Timer>)
    ensures Handles(timers, {}) == {}
  {
  }

  lemma HandlesWithout(s: State, ids: set<nat>, id: nat)
    requires Agrees(s) && ids <= s.timers.Keys && id in ids
    ensures Handles(s.timers, ids) - {s.timers[id].handle} == Handles(s.timers, ids - {id})
  {
  }

  lemma ClearAllResult(s: State)
    requires Agrees(s)
    ensures s.armed == Handles(s.timers, s.timers.Keys)
    ensures Step(s, ClearAll) == s.(timers := map[], armed := {}, isShuttingDown := true)
    ensures Agrees(Step(s, ClearAll))
  {
    StepAgrees(s, ClearAll);
    assert s.timers - s.timers.Keys == map[];
    assert Step(s, ClearAll).armed == {};
  }

  lemma RemoveNothing(s: State)
    ensures Remove(s, {}) == s
  {
    assert s.timers - {} == s.timers;
    assert s.armed - {} == s.armed;
  }

  lemma KeptByRemove(s: State, ids: set<nat>, id: nat)
    requires id in s.timers && id !in ids
    ensures id in Remove(s, ids).timers && Remove(s, ids).timers[id] == s.timers[id]
  {
  }

  lemma RemoveOneMore(s: State, ids: set<nat>, id: nat)
    requires id in s.timers && id !in ids
    ensures Remove(Remove(s, ids), {id}) == Remove(s, ids + {id})
  {
    assert s.timers - ids - {id} == s.timers - (ids + {id});
    assert (set i | i in ids + {id} && i in s.timers :: s.timers[i].handle)
           == (set i | i in ids && i in s.timers :: s.timers[i].handle) + {s.timers[id].handle};
  }
}
