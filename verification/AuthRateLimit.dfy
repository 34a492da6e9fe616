/** The per-address limit on failed authentication attempts (server/WebSocketServer.js): a fixed
    window, a block that outlasts it, and a periodic cleanup that forgets addresses. */
module AuthRateLimit {
  import opened Wrappers

  datatype Config = Config(maxAttempts: nat, windowMs: nat, blockDurationMs: nat)

  /** `blockUntil` is only meaningful while `blocked`. */
  datatype Attempts = Attempts(count: nat, resetTime: int, blocked: bool, blockUntil: int)

  /** The default configuration. */
  const DEFAULT := Config(12, 60000, 300000)

  function Fresh(config: Config, now: int): Attempts {
    Attempts(0, now + config.windowMs, false, 0)
  }

  function Current(config: Config, entry: Option<Attempts>, now: int): Attempts {
    match entry { case Some(a) => a case None => Fresh(config, now) }
  }

  predicate Blocked(config: Config, entry: Option<Attempts>, now: int) {
    var a := Current(config, entry, now);
    a.blocked && a.blockUntil > now
  }

  /** The attempts an unblocked client continues with: a new window if the old one is over. */
  function Checked(config: Config, entry: Option<Attempts>, now: int): Attempts {
    var a := Current(config, entry, now);
    if a.resetTime < now then Fresh(config, now) else a
  }

  function Counted(config: Config, a: Attempts, now: int): Attempts {
    var counted := a.(count := a.count + 1);
    if counted.count >= config.maxAttempts
    then counted.(blocked := true, blockUntil := now + config.blockDurationMs) else counted
  }

  // ---- One address over a whole run

  /** What happens to one address: an attempt whose credentials are good, bad, or not looked at because
      a later check drops it; or the cleanup. */
  datatype Event = Succeed(at: int) | Fail(at: int) | Drop(at: int) | Cleanup(at: int)

  function Step(config: Config, entry: Option<Attempts>, e: Event): Option<Attempts> {
    match e
    case Cleanup(now) => if entry.Some? && entry.value.resetTime < now then None else entry
    case Succeed(now) => if Blocked(config, entry, now) then entry else None
    case Fail(now) =>
      if Blocked(config, entry, now) then entry else Some(Counted(config, Checked(config, entry, now), now))
    case Drop(now) =>
      if Blocked(config, entry, now) || entry.None? then entry else Some(Checked(config, entry, now))
  }

  predicate Records(config: Config, entry: Option<Attempts>, e: Event) {
    e.Fail? && !Blocked(config, entry, e.at)
  }

  predicate Passes(config: Config, entry: Option<Attempts>, e: Event) {
    e.Succeed? && !Blocked(config, entry, e.at)
  }

  /** Time does not run backwards. */
  predicate InTimeOrder(run: seq<Event>, start: int)
    decreases |run|
  {
    run != [] ==> start <= run[0].at && InTimeOrder(run[1..], run[0].at)
  }

  /** The failures recorded in the closed interval. */
  function Failures(config: Config, entry: Option<Attempts>, run: seq<Event>, from: int, to: int): nat
    decreases |run|
  {
    if run == [] then 0 else
    (if Records(config, entry, run[0]) && from <= run[0].at <= to then 1 else 0)
    + Failures(config, Step(config, entry, run[0]), run[1..], from, to)
  }

  /** No attempt in the interval succeeds. */
  predicate NoSuccess(config: Config, entry: Option<Attempts>, run: seq<Event>, from: int, to: int)
    decreases |run|
  {
    run != [] ==>
      && !(Passes(config, entry, run[0]) && from <= run[0].at <= to)
      && NoSuccess(config, Step(config, entry, run[0]), run[1..], from, to)
  }

  /** The block lasts at least as long as the window, and some time. */
  predicate Sound(config: Config) {
    config.maxAttempts >= 1 && config.windowMs <= config.blockDurationMs && config.blockDurationMs > 0
  }

  /** A full window is blocked to its end at least, and beyond it once one more was recorded: that can
      only happen at the window's very end, under a block no longer than the window. */
  predicate EntryOk(config: Config, entry: Option<Attempts>) {
    entry.Some? ==>
      && entry.value.count <= config.maxAttempts + 1
      && (entry.value.count >= config.maxAttempts ==> entry.value.blocked && entry.value.blockUntil >= entry.value.resetTime)
      && (entry.value.count > config.maxAttempts ==> entry.value.blockUntil > entry.value.resetTime)
  }

  /** The current window was opened at or before `now`, so it ends at most a window later. */
  predicate Opened(config: Config, entry: Option<Attempts>, now: int) {
    entry.Some? ==> entry.value.resetTime <= now + config.windowMs
  }

  lemma StepKeepsEntryOk(config: Config, entry: Option<Attempts>, e: Event, before: int)
    requires Sound(config) && EntryOk(config, entry) && Opened(config, entry, before) && before <= e.at
    ensures EntryOk(config, Step(config, entry, e)) && Opened(config, Step(config, entry, e), e.at)
  {
  }

  /** What a window opened at `since` or later can hold up to a window's length after `from`: one more
      than the maximum only if it opens exactly at `from`. */
  function WindowHolds(config: Config, since: int, from: int): nat {
    config.maxAttempts + if since <= from then 1 else 0
  }

  /** What the current window can still record at `t` or later. */
  function Remaining(config: Config, a: Attempts, t: int, from: int): nat {
    if a.resetTime < t then 0
    else if a.count < config.maxAttempts then
      config.maxAttempts - a.count + if a.resetTime - config.windowMs == from then 1 else 0
    else if a.count == config.maxAttempts && a.blockUntil <= a.resetTime <= from + config.windowMs then 1
    else 0
  }

  /** What can still be recorded from `t` up to a window's length after `from`: by the current window
      and by one more after it. */
  function Allowance(config: Config, entry: Option<Attempts>, t: int, from: int): nat
    requires EntryOk(config, entry)
  {
    match entry
    case None => WindowHolds(config, t, from)
    case Some(a) =>
      Remaining(config, a, t, from)
      + if a.resetTime >= from + config.windowMs then 0
        else WindowHolds(config, if t <= a.resetTime then a.resetTime + 1 else t, from)
  }

  /** Each failure in the interval uses up some of the allowance. */
  lemma StepUsesAllowance(config: Config, entry: Option<Attempts>, e: Event, from: int, before: int)
    requires Sound(config) && EntryOk(config, entry) && Opened(config, entry, before) && before <= e.at
    requires from <= before && e.at <= from + config.windowMs
    requires !Passes(config, entry, e)
    ensures EntryOk(config, Step(config, entry, e))
    ensures Allowance(config, Step(config, entry, e), e.at, from) + (if Records(config, entry, e) then 1 else 0)
            <= Allowance(config, entry, before, from)
  {
    StepKeepsEntryOk(config, entry, e, before);
  }

  lemma AllowanceIsTwice(config: Config, entry: Option<Attempts>, t: int, from: int)
    requires Sound(config) && EntryOk(config, entry) && Opened(config, entry, t) && from <= t
    ensures Allowance(config, entry, t, from) <= 2 * config.maxAttempts
  {
  }

  lemma {:induction false} FailuresWithinAllowance(config: Config, entry: Option<Attempts>, run: seq<Event>, from: int, start: int)
    requires Sound(config) && EntryOk(config, entry) && Opened(config, entry, start)
    requires InTimeOrder(run, start) && from <= start
    requires NoSuccess(config, entry, run, from, from + config.windowMs)
    ensures Failures(config, entry, run, from, from + config.windowMs) <= Allowance(config, entry, start, from)
    decreases |run|
  {
    hide Step, Records, Passes, Allowance;
    if run != [] {
      var e := run[0];
      StepKeepsEntryOk(config, entry, e, start);
      if e.at <= from + config.windowMs {
        StepUsesAllowance(config, entry, e, from, start);
        FailuresWithinAllowance(config, Step(config, entry, e), run[1..], from, e.at);
      } else {
        NoFailuresAfter(config, entry, run, from, from + config.windowMs, start);
      }
    }
  }

  lemma {:induction false} NoFailuresAfter(config: Config, entry: Option<Attempts>, run: seq<Event>, from: int, to: int, start: int)
    requires InTimeOrder(run, start) && (run != [] ==> run[0].at > to)
    ensures Failures(config, entry, run, from, to) == 0
    decreases |run|
  {
    hide Step, Records;
    if run != [] {
      NoFailuresAfter(config, Step(config, entry, run[0]), run[1..], from, to, run[0].at);
    }
  }

  /** With a block at least as long as the window, any closed interval as long as the window in which no
      attempt from an address succeeds holds at most twice `maxAttempts` recorded failures from it,
      whenever the cleanup runs. */
  lemma {:induction false} AtMostTwoWindowsOfFailures(config: Config, entry: Option<Attempts>, run: seq<Event>, from: int, start: int)
    requires Sound(config) && EntryOk(config, entry) && Opened(config, entry, start)
    requires InTimeOrder(run, start)
    requires NoSuccess(config, entry, run, from, from + config.windowMs)
    ensures Failures(config, entry, run, from, from + config.windowMs) <= 2 * config.maxAttempts
    decreases |run|
  {
    hide Step, Records, Passes, Allowance;
    if run != [] {
      var e := run[0];
      if e.at < from {
        StepKeepsEntryOk(config, entry, e, start);
        AtMostTwoWindowsOfFailures(config, Step(config, entry, e), run[1..], from, e.at);
      } else {
        var t := if start < from then from else start;
        FailuresWithinAllowance(config, entry, run, from, t);
        AllowanceIsTwice(config, entry, t, from);
      }
    }
  }

  /** `n` failures at one moment, then the rest. */
  function Repeat(n: nat, at: int, rest: seq<Event>): seq<Event> {
    if n == 0 then rest else [Fail(at)] + Repeat(n - 1, at, rest)
  }

  lemma {:induction false} RepeatIsInOrder(n: nat, at: int, rest: seq<Event>, start: int)
    requires start <= at && InTimeOrder(rest, at)
    ensures InTimeOrder(Repeat(n, at, rest), start)
  {
    if n > 0 {
      RepeatIsInOrder(n - 1, at, rest, at);
      assert Repeat(n, at, rest)[1..] == Repeat(n - 1, at, rest);
    }
  }

  /** A run in which nobody ever succeeds. */
  predicate AllFail(run: seq<Event>) {
    forall i :: 0 <= i < |run| ==> !run[i].Succeed?
  }

  lemma {:induction false} AllFailNoSuccess(config: Config, entry: Option<Attempts>, run: seq<Event>, from: int, to: int)
    requires AllFail(run)
    ensures NoSuccess(config, entry, run, from, to)
    decreases |run|
  {
    hide Step;
    if run != [] {
      AllFailNoSuccess(config, Step(config, entry, run[0]), run[1..], from, to);
    }
  }

  lemma {:induction false} RepeatFails(n: nat, at: int, rest: seq<Event>)
    requires AllFail(rest)
    ensures AllFail(Repeat(n, at, rest))
  {
    if n > 0 {
      RepeatFails(n - 1, at, rest);
    }
  }

  /** With no block at all, any number of failures at one moment is recorded. */
  lemma {:induction false} WithoutBlockNoBound(config: Config, entry: Option<Attempts>, n: nat, now: int)
    requires config.blockDurationMs == 0
    requires entry.Some? ==> entry.value.resetTime >= now && (entry.value.blocked ==> entry.value.blockUntil <= now)
    ensures Failures(config, entry, Repeat(n, now, []), now, now + config.windowMs) == n
    decreases n
  {
    if n > 0 {
      assert Repeat(n, now, [])[1..] == Repeat(n - 1, now, []);
      WithoutBlockNoBound(config, Step(config, entry, Fail(now)), n - 1, now);
    }
  }

  /** `k` failures fill the window and block it. */
  lemma {:induction false} Filling(config: Config, entry: Option<Attempts>, k: nat, at: int, rest: seq<Event>, from: int, to: int)
    requires from <= at <= to && k >= 1
    requires var a := Current(config, entry, at);
             a == Attempts(a.count, a.resetTime, false, 0) && a.count + k == config.maxAttempts && at <= a.resetTime
    ensures Failures(config, entry, Repeat(k, at, rest), from, to) ==
            k + Failures(config, Some(Attempts(config.maxAttempts, Current(config, entry, at).resetTime, true,
                                               at + config.blockDurationMs)), rest, from, to)
    decreases k
  {
    hide Failures;
    var run := Repeat(k, at, rest);
    FailuresOfCons(config, entry, Fail(at), Repeat(k - 1, at, rest), from, to);
    if k > 1 {
      Filling(config, Step(config, entry, Fail(at)), k - 1, at, rest, from, to);
    }
  }

  lemma FailuresOfCons(config: Config, entry: Option<Attempts>, e: Event, rest: seq<Event>, from: int, to: int)
    ensures Failures(config, entry, [e] + rest, from, to) ==
            (if Records(config, entry, e) && from <= e.at <= to then 1 else 0)
            + Failures(config, Step(config, entry, e), rest, from, to)
  {
    hide Step, Records;
    assert ([e] + rest)[1..] == rest;
  }

  /** The limit itself: from a clean start exactly `maxAttempts` failures are recorded at one moment, however
      many more are tried; then the address is blocked for the whole block and no longer. */
  lemma MaxAttemptsThenBlocked(config: Config, extra: nat, now: int, later: int)
    requires config.maxAttempts >= 1 && config.blockDurationMs > 0 && now <= later
    ensures Failures(config, None, Repeat(config.maxAttempts, now, Repeat(extra, now, [])), now, now) == config.maxAttempts
    ensures var full := Some(Attempts(config.maxAttempts, now + config.windowMs, true, now + config.blockDurationMs));
            && (forall rest :: Failures(config, None, Repeat(config.maxAttempts, now, rest), now, now)
                               == config.maxAttempts + Failures(config, full, rest, now, now))
            && (Blocked(config, full, later) <==> later < now + config.blockDurationMs)
  {
    var full := Some(Attempts(config.maxAttempts, now + config.windowMs, true, now + config.blockDurationMs));
    forall rest
      ensures Failures(config, None, Repeat(config.maxAttempts, now, rest), now, now)
              == config.maxAttempts + Failures(config, full, rest, now, now)
    {
      Filling(config, None, config.maxAttempts, now, rest, now, now);
    }
    BlockedRecordsNothing(config, full, extra, now);
  }

  lemma {:induction false} BlockedRecordsNothing(config: Config, entry: Option<Attempts>, n: nat, now: int)
    requires Blocked(config, entry, now)
    ensures Failures(config, entry, Repeat(n, now, []), now, now) == 0
    decreases n
  {
    if n > 0 {
      assert Repeat(n, now, [])[1..] == Repeat(n - 1, now, []);
      BlockedRecordsNothing(config, entry, n - 1, now);
    }
  }

  /** A success clears the record, and so does the end of the window. */
  lemma ForgottenAfter(config: Config, entry: Option<Attempts>, now: int)
    ensures !Blocked(config, entry, now) ==> Step(config, entry, Succeed(now)) == None
    ensures Blocked(config, entry, now) ==> Step(config, entry, Succeed(now)) == entry
    ensures entry.Some? && entry.value.resetTime < now && !Blocked(config, entry, now) && config.maxAttempts > 1 ==>
              Step(config, entry, Fail(now)) == Some(Attempts(1, now + config.windowMs, false, 0))
    ensures entry.Some? && entry.value.resetTime >= now && !Blocked(config, entry, now) && entry.value.count + 1 < config.maxAttempts ==>
              Step(config, entry, Fail(now)) == Some(entry.value.(count := entry.value.count + 1))
    ensures Step(config, entry, Cleanup(now)) == if entry.Some? && entry.value.resetTime < now then None else entry
  {
  }

  /** A run that overfills: a window filled at its very end, a cleanup that forgets the block with the
      window, a new window filled at once, and one more failure when the shorter block is over. */
  function Overfilling(config: Config): seq<Event> {
    var w, m := config.windowMs, config.maxAttempts;
    [Fail(0)] + ([Drop(w + 1)] + Repeat(m, 2 * w + 1, [Cleanup(2 * w + 2)] +
      Repeat(m, 2 * w + 2, [Fail(2 * w + 2 + config.blockDurationMs)])))
  }

  lemma ShorterBlockOverfills(config: Config)
    requires config.maxAttempts >= 1 && config.blockDurationMs < config.windowMs
    ensures InTimeOrder(Overfilling(config), 0) && AllFail(Overfilling(config))
    ensures var from := 2 * config.windowMs + 1;
            Failures(config, None, Overfilling(config), from, from + config.windowMs) == 2 * config.maxAttempts + 1
  {
    hide Failures;
    var w, m, b := config.windowMs, config.maxAttempts, config.blockDurationMs;
    var from, to := 2 * w + 1, 3 * w + 1;
    var last := [Fail(2 * w + 2 + b)];
    var second := Repeat(m, 2 * w + 2, last);
    var cleaned := [Cleanup(2 * w + 2)] + second;
    var first := Repeat(m, 2 * w + 1, cleaned);
    var dropped := [Drop(w + 1)] + first;
    OverfillingIsARun(config, last, second, cleaned, first, dropped);
    FirstWindow(config, dropped, first, cleaned, second, from, to);
    SecondWindow(config, second, last, from, to);
  }

  lemma FirstWindow(config: Config, dropped: seq<Event>, first: seq<Event>, cleaned: seq<Event>, second: seq<Event>, from: int, to: int)
    requires config.maxAttempts >= 1 && config.blockDurationMs < config.windowMs
    requires from == 2 * config.windowMs + 1 && to == 3 * config.windowMs + 1
    requires cleaned == [Cleanup(2 * config.windowMs + 2)] + second
    requires first == Repeat(config.maxAttempts, from, cleaned) && dropped == [Drop(config.windowMs + 1)] + first
    ensures Failures(config, None, [Fail(0)] + dropped, from, to) == config.maxAttempts + Failures(config, None, second, from, to)
  {
    hide Failures, Repeat;
    var w, m, b := config.windowMs, config.maxAttempts, config.blockDurationMs;
    FailuresOfCons(config, None, Fail(0), dropped, from, to);
    FailuresOfCons(config, Step(config, None, Fail(0)), Drop(w + 1), first, from, to);
    Filling(config, Some(Attempts(0, from, false, 0)), m, from, cleaned, from, to);
    FailuresOfCons(config, Some(Attempts(m, from, true, from + b)), Cleanup(2 * w + 2), second, from, to);
  }

  lemma SecondWindow(config: Config, second: seq<Event>, last: seq<Event>, from: int, to: int)
    requires config.maxAttempts >= 1 && config.blockDurationMs < config.windowMs
    requires from == 2 * config.windowMs + 1 && to == 3 * config.windowMs + 1
    requires last == [Fail(2 * config.windowMs + 2 + config.blockDurationMs)]
    requires second == Repeat(config.maxAttempts, 2 * config.windowMs + 2, last)
    ensures Failures(config, None, second, from, to) == config.maxAttempts + 1
  {
    hide Repeat;
    var w, m, b := config.windowMs, config.maxAttempts, config.blockDurationMs;
    Filling(config, None, m, 2 * w + 2, last, from, to);
    FailuresOfCons(config, Some(Attempts(m, 3 * w + 2, true, 2 * w + 2 + b)), last[0], [], from, to);
    assert [last[0]] + [] == last;
  }

  lemma OverfillingIsARun(config: Config, last: seq<Event>, second: seq<Event>, cleaned: seq<Event>, first: seq<Event>, dropped: seq<Event>)
    requires var w, m := config.windowMs, config.maxAttempts;
             && last == [Fail(2 * w + 2 + config.blockDurationMs)]
             && second == Repeat(m, 2 * w + 2, last) && cleaned == [Cleanup(2 * w + 2)] + second
             && first == Repeat(m, 2 * w + 1, cleaned) && dropped == [Drop(w + 1)] + first
    ensures InTimeOrder(Overfilling(config), 0) && AllFail(Overfilling(config))
  {
    var w, m := config.windowMs, config.maxAttempts;
    RepeatIsInOrder(m, 2 * w + 2, last, 2 * w + 2);
    RepeatIsInOrder(m, 2 * w + 1, cleaned, w + 1);
    RepeatFails(m, 2 * w + 2, last);
    RepeatFails(m, 2 * w + 1, cleaned);
    assert cleaned[1..] == second && dropped[1..] == first && ([Fail(0)] + dropped)[1..] == dropped;
  }

  /** The promise for one run and one interval. */
  predicate Bounded(config: Config, run: seq<Event>, from: int) {
    NoSuccess(config, None, run, from, from + config.windowMs) ==>
      Failures(config, None, run, from, from + config.windowMs) <= 2 * config.maxAttempts
  }

  ghost predicate KeepsBound(config: Config) {
    forall run, from, start :: InTimeOrder(run, start) ==> Bounded(config, run, from)
  }

  /** The promise is kept in every run exactly if some attempts are allowed, and the block lasts at least
      as long as the window and some time. */
  lemma BoundIsKeptExactly(config: Config)
    ensures KeepsBound(config) <==> Sound(config)
  {
    hide Bounded;
    if Sound(config) {
      forall run, from, start | InTimeOrder(run, start) ensures Bounded(config, run, from) {
        SoundIsBounded(config, run, from, start);
      }
    } else {
      var run, from := Unbounded(config);
    }
  }

  lemma SoundIsBounded(config: Config, run: seq<Event>, from: int, start: int)
    requires Sound(config) && InTimeOrder(run, start)
    ensures Bounded(config, run, from)
  {
    if NoSuccess(config, None, run, from, from + config.windowMs) {
      AtMostTwoWindowsOfFailures(config, None, run, from, start);
    }
  }

  lemma Unbounded(config: Config) returns (run: seq<Event>, from: int)
    requires !Sound(config)
    ensures InTimeOrder(run, 0) && !Bounded(config, run, from)
  {
    if config.maxAttempts == 0 {
      run, from := [Fail(0)], 0;
      AllFailNoSuccess(config, None, run, 0, config.windowMs);
    } else if config.blockDurationMs == 0 {
      var n := 2 * config.maxAttempts + 1;
      run, from := Repeat(n, 0, []), 0;
      RepeatIsInOrder(n, 0, [], 0);
      RepeatFails(n, 0, []);
      AllFailNoSuccess(config, None, run, 0, config.windowMs);
      WithoutBlockNoBound(config, None, n, 0);
    } else {
      run, from := Overfilling(config), 2 * config.windowMs + 1;
      ShorterBlockOverfills(config);
      AllFailNoSuccess(config, None, run, from, from + config.windowMs);
    }
  }

  /** The default configuration keeps it: no address has more than 24 failures recorded in a minute
      without a success. */
  lemma DefaultIsBounded(run: seq<Event>, from: int, start: int)
    requires InTimeOrder(run, start) && NoSuccess(DEFAULT, None, run, from, from + 60000)
    ensures Failures(DEFAULT, None, run, from, from + 60000) <= 24
  {
    AtMostTwoWindowsOfFailures(DEFAULT, None, run, from, start);
  }

  // ---- The limiter

  class Limiter {
    const config: Config
    var authAttempts: map<string, Attempts>

    ghost function Entry(ip: string): Option<Attempts>
      reads this
    {
      if ip in authAttempts then Some(authAttempts[ip]) else None
    }

    constructor (config: Config)
      ensures this.config == config && authAttempts == map[]
    {
      this.config := config;
      authAttempts := map[];
    }

    /** `_checkRateLimit`: `None` where it throws. A window that is over is reset in place, so a stored
        entry changes even if nothing is recorded afterwards. */
    method CheckRateLimit(ip: string, now: int) returns (r: Option<Attempts>)
      modifies this
      ensures r.None? <==> Blocked(config, old(Entry(ip)), now)
      ensures r.Some? ==> r.value == Checked(config, old(Entry(ip)), now)
      ensures Entry(ip) == Step(config, old(Entry(ip)), Drop(now))
      ensures forall other :: other != ip ==> Entry(other) == old(Entry(other))
    {
      var attempts := if ip in authAttempts then authAttempts[ip] else Attempts(0, now + config.windowMs, false, 0);
      if attempts.blocked && attempts.blockUntil > now {
        return None;
      }
      if attempts.resetTime < now {
        attempts := attempts.(count := 0, resetTime := now + config.windowMs, blocked := false, blockUntil := 0);
      }
      if ip in authAttempts {
        authAttempts := authAttempts[ip := attempts];
      }
      r := Some(attempts);
    }

    /** `_recordFailedAuth`, on the attempts the check returned. */
    method RecordFailedAuth(ip: string, attempts: Attempts, now: int)
      modifies this
      ensures Entry(ip) == Some(Counted(config, attempts, now))
      ensures forall other :: other != ip ==> Entry(other) == old(Entry(other))
    {
      var counted := attempts.(count := attempts.count + 1);
      if counted.count >= config.maxAttempts {
        counted := counted.(blocked := true, blockUntil := now + config.blockDurationMs);
      }
      authAttempts := authAttempts[ip := counted];
    }

    method RecordSuccessfulAuth(ip: string)
      modifies this
      ensures Entry(ip) == None
      ensures forall other :: other != ip ==> Entry(other) == old(Entry(other))
    {
      authAttempts := authAttempts - {ip};
    }

    /** One AUTH message from an address, as the handler strings the three together: what is stored
        afterwards is the step of that address's run, and no other address is affected. */
    method Authenticate(ip: string, good: bool, now: int) returns (admitted: bool)
      modifies this
      ensures admitted <==> Passes(config, old(Entry(ip)), Succeed(now)) && good
      ensures Entry(ip) == Step(config, old(Entry(ip)), if good then Succeed(now) else Fail(now))
      ensures forall other :: other != ip ==> Entry(other) == old(Entry(other))
    {
      var attempts := CheckRateLimit(ip, now);
      if attempts.None? {
        return false;
      }
      if !good {
        RecordFailedAuth(ip, attempts.value, now);
        return false;
      }
      RecordSuccessfulAuth(ip);
      admitted := true;
    }

    /** The periodic cleanup: forgets every address whose window is over, even a blocked one. */
    method CleanUp(now: int)
      modifies this
      ensures forall ip :: Entry(ip) == Step(config, old(Entry(ip)), Cleanup(now))
    {
      var ips := authAttempts.Keys;
      ghost var before := authAttempts;
      while ips != {}
        invariant ips <= before.Keys
        invariant forall ip :: ip in authAttempts ==> ip in before && authAttempts[ip] == before[ip]
        invariant forall ip :: ip in before ==>
                    (ip in authAttempts <==> ip in ips || before[ip].resetTime >= now)
        decreases |ips|
      {
        var ip :| ip in ips;
        ips := ips - {ip};
        if authAttempts[ip].resetTime < now {
          authAttempts := authAttempts - {ip};
        }
      }
    }
  }
}
