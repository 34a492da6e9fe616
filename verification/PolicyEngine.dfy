/** Composable approval rules for automated signers (client/PolicyEngine.js). */
module PolicyEngine {
  import opened Wrappers

  /** `amount` is what `parseFloat` makes of the text: `None` where it is not a number. */
  datatype Transfer = Transfer(accountId: string, amount: Option<real>)

  datatype TxDetails = TxDetails(transfers: Option<seq<Transfer>>, typeName: Option<string>, transactionType: Option<string>)

  datatype Outcome = Approve | Reject | Throw

  /** The built-in rules, and any other rule that keeps no state. A rate limit keeps the times of its
      own approvals. */
  datatype Rule =
    | MaxAmount(maxHbar: real)
    | AllowedRecipients(accounts: set<string>)
    | AllowedTypes(types: set<string>)
    | TimeWindow(startHour: int, endHour: int)
    | RateLimit(maxPerHour: int, approvals: seq<int>)
    | Custom(name: string, judge: (TxDetails, int) -> Outcome)

  const HOUR: int := 3600000

  function Abs(x: real): real {
    if x < 0.0 then -x else x
  }

  /** The type, under either of its names; an empty name counts as missing. */
  function TypeOf(tx: TxDetails): Option<string> {
    if tx.typeName.Some? && tx.typeName.value != "" then tx.typeName
    else if tx.transactionType.Some? && tx.transactionType.value != "" then tx.transactionType
    else None
  }

  predicate WithinAmount(maxHbar: real, t: Transfer) {
    t.amount.Some? ==> Abs(t.amount.value) <= maxHbar * 100000000.0
  }

  predicate ToAllowed(accounts: set<string>, t: Transfer) {
    t.amount.Some? && t.amount.value > 0.0 ==> t.accountId in accounts
  }

  /** The approvals less than an hour old. */
  function Recent(approvals: seq<int>, now: int): seq<int> {
    if approvals == [] then []
    else (if approvals[0] > now - HOUR then [approvals[0]] else []) + Recent(approvals[1..], now)
  }

  function Hour(now: int): int {
    now / HOUR % 24
  }

  predicate InWindow(startHour: int, endHour: int, hour: int) {
    if startHour <= endHour then startHour <= hour < endHour else hour >= startHour || hour < endHour
  }

  /** What a rule says of a transaction. */
  function Judge(rule: Rule, tx: TxDetails, now: int): Outcome {
    match rule
    case MaxAmount(maxHbar) =>
      if tx.transfers.Some? && exists i :: 0 <= i < |tx.transfers.value| && !WithinAmount(maxHbar, tx.transfers.value[i])
      then Reject else Approve
    case AllowedRecipients(accounts) =>
      if tx.transfers.Some? && exists i :: 0 <= i < |tx.transfers.value| && !ToAllowed(accounts, tx.transfers.value[i])
      then Reject else Approve
    case AllowedTypes(types) => if TypeOf(tx).Some? && TypeOf(tx).value in types then Approve else Reject
    case TimeWindow(startHour, endHour) => if InWindow(startHour, endHour, Hour(now)) then Approve else Reject
    case RateLimit(maxPerHour, approvals) => if |Recent(approvals, now)| < maxPerHour then Approve else Reject
    case Custom(_, judge) => judge(tx, now)
  }

  /** The rule after it has judged: a rate limit drops old approvals and records its own new one,
      even when another rule rejects the transaction. */
  function After(rule: Rule, now: int): Rule {
    match rule
    case RateLimit(maxPerHour, approvals) =>
      var recent := Recent(approvals, now);
      RateLimit(maxPerHour, if |recent| < maxPerHour then recent + [now] else recent)
    case _ => rule
  }

  function AfterAll(rules: seq<Rule>, now: int): (r: seq<Rule>)
    ensures |r| == |rules| && forall i :: 0 <= i < |rules| ==> r[i] == After(rules[i], now)
  {
    seq(|rules|, i requires 0 <= i < |rules| => After(rules[i], now))
  }

  predicate AllApprove(rules: seq<Rule>, tx: TxDetails, now: int) {
    forall i :: 0 <= i < |rules| ==> Judge(rules[i], tx, now) == Approve
  }

  /** A failed rule, by its position, and whether it failed by throwing. */
  datatype Failure = Failure(rule: nat, threw: bool)

  datatype Decision = Decision(approved: bool, failedRules: seq<Failure>)

  predicate Names(f: seq<Failure>, rule: nat) {
    exists k :: 0 <= k < |f| && f[k].rule == rule
  }

  /** `f` lists exactly the rules before `n` that do not approve, in order. */
  ghost predicate ListsFailures(f: seq<Failure>, rules: seq<Rule>, n: nat, tx: TxDetails, now: int)
    requires n <= |rules|
  {
    && (forall k :: 0 <= k < |f| ==> f[k].rule < n && Judge(rules[f[k].rule], tx, now) != Approve
                                     && f[k].threw == (Judge(rules[f[k].rule], tx, now) == Throw))
    && (forall i, j :: 0 <= i < j < |f| ==> f[i].rule < f[j].rule)
    && (forall i :: 0 <= i < n && Judge(rules[i], tx, now) != Approve ==> Names(f, i))
  }

  method JudgeMaxAmount(maxHbar: real, tx: TxDetails, now: int) returns (r: Outcome)
    ensures r == Judge(MaxAmount(maxHbar), tx, now)
  {
    if tx.transfers.None? { return Approve; }
    var transfers := tx.transfers.value;
    for i := 0 to |transfers|
      invariant forall k :: 0 <= k < i ==> WithinAmount(maxHbar, transfers[k])
    {
      if transfers[i].amount.Some? {
        var amountHbar := Abs(transfers[i].amount.value) / 100000000.0;
        if amountHbar > maxHbar {
          assert !WithinAmount(maxHbar, transfers[i]);
          return Reject;
        }
      }
    }
    r := Approve;
  }

  method JudgeAllowedRecipients(accounts: set<string>, tx: TxDetails, now: int) returns (r: Outcome)
    ensures r == Judge(AllowedRecipients(accounts), tx, now)
  {
    if tx.transfers.None? { return Approve; }
    var transfers := tx.transfers.value;
    for i := 0 to |transfers|
      invariant forall k :: 0 <= k < i ==> ToAllowed(accounts, transfers[k])
    {
      if transfers[i].amount.Some? && transfers[i].amount.value > 0.0 && transfers[i].accountId !in accounts {
        assert !ToAllowed(accounts, transfers[i]);
        return Reject;
      }
    }
    r := Approve;
  }

  class Engine {
    var rules: seq<Rule>

    constructor ()
      ensures rules == []
    {
      rules := [];
    }

    method AddRule(rule: Rule)
      modifies this
      ensures rules == old(rules) + [rule]
    {
      rules := rules + [rule];
    }

    /** Every rule is asked, also after one has failed; a rule that throws counts as failed. */
    method Evaluate(tx: TxDetails, now: int) returns (decision: Decision)
      modifies this
      ensures decision.approved <==> AllApprove(old(rules), tx, now)
      ensures ListsFailures(decision.failedRules, old(rules), |old(rules)|, tx, now)
      ensures rules == AfterAll(old(rules), now)
    {
      hide Judge, After;
      var failedRules: seq<Failure> := [];
      var i := 0;
      while i < |rules|
        invariant 0 <= i <= |rules| == |old(rules)|
        invariant forall k :: 0 <= k < i ==> rules[k] == After(old(rules)[k], now)
        invariant forall k :: i <= k < |rules| ==> rules[k] == old(rules)[k]
        invariant ListsFailures(failedRules, old(rules), i, tx, now)
      {
        var result := Approve;
        match rules[i] {
          case MaxAmount(maxHbar) => result := JudgeMaxAmount(maxHbar, tx, now);
          case AllowedRecipients(accounts) => result := JudgeAllowedRecipients(accounts, tx, now);
          case _ => result := Judge(rules[i], tx, now);
        }
        ghost var before := failedRules;
        if result != Approve {
          failedRules := failedRules + [Failure(i, result == Throw)];
        }
        FailuresOneMore(before, failedRules, old(rules), i, tx, now);
        rules := rules[i := After(rules[i], now)];
        i := i + 1;
      }
      assert rules == AfterAll(old(rules), now);
      ApprovedIffNoFailure(failedRules, old(rules), tx, now);
      decision := Decision(|failedRules| == 0, failedRules);
    }
  }

  lemma FailuresOneMore(before: seq<Failure>, after: seq<Failure>, rules: seq<Rule>, i: nat, tx: TxDetails, now: int)
    requires i < |rules| && ListsFailures(before, rules, i, tx, now)
    requires var result := Judge(rules[i], tx, now);
             after == if result == Approve then before else before + [Failure(i, result == Throw)]
    ensures ListsFailures(after, rules, i + 1, tx, now)
  {
    hide Judge, Names;
    NamesOneMore(before, Failure(i, Judge(rules[i], tx, now) == Throw));
  }

  lemma NamesOneMore(f: seq<Failure>, failure: Failure)
    ensures forall rule :: Names(f + [failure], rule) <==> Names(f, rule) || rule == failure.rule
  {
    var g := f + [failure];
    assert g[|f|] == failure;
    forall rule | Names(f, rule) ensures Names(g, rule) {
      var k :| 0 <= k < |f| && f[k].rule == rule;
      assert g[k].rule == rule;
    }
  }

  lemma ApprovedIffNoFailure(f: seq<Failure>, rules: seq<Rule>, tx: TxDetails, now: int)
    requires ListsFailures(f, rules, |rules|, tx, now)
    ensures f == [] <==> AllApprove(rules, tx, now)
  {
    hide Judge;
    assert f == [] ==> forall i :: !Names(f, i);
    if f != [] {
      assert Judge(rules[f[0].rule], tx, now) != Approve;
    }
  }

  /** The decision does not depend on the order of the rules. */
  lemma OrderDoesNotMatter(rules1: seq<Rule>, rules2: seq<Rule>, tx: TxDetails, now: int)
    requires forall rule :: rule in rules1 <==> rule in rules2
    ensures AllApprove(rules1, tx, now) <==> AllApprove(rules2, tx, now)
  {
    hide Judge;
    forall i | 0 <= i < |rules1| && AllApprove(rules2, tx, now) ensures Judge(rules1[i], tx, now) == Approve {
      assert rules1[i] in rules2;
    }
    forall i | 0 <= i < |rules2| && AllApprove(rules1, tx, now) ensures Judge(rules2[i], tx, now) == Approve {
      assert rules2[i] in rules1;
    }
  }

  // ---- The rate limit over whole runs

  datatype Request = Request(tx: TxDetails, now: int)

  predicate InTimeOrder(run: seq<Request>)
  {
    forall i, j :: 0 <= i < j < |run| ==> run[i].now <= run[j].now
  }

  /** How many transactions of the run the engine approves in the half-open hour after `t`. */
  function ApprovedInHour(rules: seq<Rule>, run: seq<Request>, t: int): nat
    decreases |run|
  {
    if run == [] then 0 else
    (if AllApprove(rules, run[0].tx, run[0].now) && t < run[0].now <= t + 3600000 then 1 else 0)
    + ApprovedInHour(AfterAll(rules, run[0].now), run[1..], t)
  }

  /** The approvals after `t`. */
  function Since(approvals: seq<int>, t: int): nat {
    if approvals == [] then 0 else (if approvals[0] > t then 1 else 0) + Since(approvals[1..], t)
  }

  /** A negative limit approves nothing, as zero does. */
  function Most(maxPerHour: int): nat {
    if maxPerHour < 0 then 0 else maxPerHour
  }

  lemma {:induction false} SinceOfAppend(a: seq<int>, x: int, t: int)
    ensures Since(a + [x], t) == Since(a, t) + if x > t then 1 else 0
  {
    if a == [] {
      assert a + [x] == [x] && [x][1..] == [];
    } else {
      assert (a + [x])[1..] == a[1..] + [x];
      SinceOfAppend(a[1..], x, t);
    }
  }

  /** Dropping approvals that are an hour old loses none made after `t`, up to an hour after `t`. */
  lemma {:induction false} PruningKeepsSince(a: seq<int>, now: int, t: int)
    requires now <= t + HOUR
    ensures Since(Recent(a, now), t) == Since(a, t) <= |Recent(a, now)|
  {
    if a != [] {
      PruningKeepsSince(a[1..], now, t);
      assert Recent(a, now) == (if a[0] > now - HOUR then [a[0]] else []) + Recent(a[1..], now);
      if a[0] > now - HOUR {
        assert Recent(a, now)[1..] == Recent(a[1..], now);
      } else {
        assert Recent(a, now) == Recent(a[1..], now);
      }
    }
  }

  lemma {:induction false} NoneInHourLater(rules: seq<Rule>, run: seq<Request>, t: int)
    requires InTimeOrder(run) && (run != [] ==> run[0].now > t + HOUR)
    ensures ApprovedInHour(rules, run, t) == 0
    decreases |run|
  {
    hide AllApprove;
    if run != [] {
      NoneInHourLater(AfterAll(rules, run[0].now), run[1..], t);
    }
  }

  /** With a rate limit anywhere among the rules, every half-open hour holds at most as many approvals
      by the engine as the limit says, less those the rule already counts. */
  lemma {:induction false} HourlyApprovals(rules: seq<Rule>, run: seq<Request>, t: int, k: nat)
    requires InTimeOrder(run)
    requires k < |rules| && rules[k].RateLimit? && Since(rules[k].approvals, t) <= Most(rules[k].maxPerHour)
    ensures ApprovedInHour(rules, run, t) + Since(rules[k].approvals, t) <= Most(rules[k].maxPerHour)
    decreases |run|
  {
    if run != [] {
      var now := run[0].now;
      if now > t + HOUR {
        NoneInHourLater(rules, run, t);
      } else {
        OneRequest(rules, run[0].tx, now, t, k);
        hide Since, After, Judge, AllApprove;
        HourlyApprovals(AfterAll(rules, now), run[1..], t, k);
      }
    }
  }

  lemma OneRequest(rules: seq<Rule>, tx: TxDetails, now: int, t: int, k: nat)
    requires now <= t + HOUR
    requires k < |rules| && rules[k].RateLimit? && Since(rules[k].approvals, t) <= Most(rules[k].maxPerHour)
    ensures var after := After(rules[k], now);
            && after.RateLimit? && after.maxPerHour == rules[k].maxPerHour
            && Since(after.approvals, t) <= Most(after.maxPerHour)
            && Since(rules[k].approvals, t) + (if AllApprove(rules, tx, now) && t < now then 1 else 0) <= Since(after.approvals, t)
  {
    var recent := Recent(rules[k].approvals, now);
    PruningKeepsSince(rules[k].approvals, now, t);
    SinceOfAppend(recent, now, t);
    assert AllApprove(rules, tx, now) ==> Judge(rules[k], tx, now) == Approve;
  }

  /** The limit as promised: at most `maxPerHour` approvals in any half-open hour of any run. */
  lemma AtMostMaxPerHour(rules: seq<Rule>, run: seq<Request>, t: int, k: nat)
    requires InTimeOrder(run)
    requires k < |rules| && rules[k].RateLimit? && rules[k].approvals == []
    ensures ApprovedInHour(rules, run, t) <= Most(rules[k].maxPerHour)
  {
    HourlyApprovals(rules, run, t, k);
  }

  /** The times at which a rate limit approves, asked at `times`. */
  function Approvals(maxPerHour: int, approvals: seq<int>, times: seq<int>): seq<int>
    decreases |times|
  {
    if times == [] then [] else
    var recent := Recent(approvals, times[0]);
    if |recent| < maxPerHour then [times[0]] + Approvals(maxPerHour, recent + [times[0]], times[1..])
    else Approvals(maxPerHour, recent, times[1..])
  }

  /** The same limit kept simply: every approval ever made is remembered. */
  function SimpleApprovals(maxPerHour: int, log: seq<int>, times: seq<int>): seq<int>
    decreases |times|
  {
    if times == [] then []
    else if |Recent(log, times[0])| < maxPerHour then
      [times[0]] + SimpleApprovals(maxPerHour, log + [times[0]], times[1..])
    else SimpleApprovals(maxPerHour, log, times[1..])
  }

  lemma {:induction false} RecentOfAppend(a: seq<int>, b: seq<int>, now: int)
    ensures Recent(a + b, now) == Recent(a, now) + Recent(b, now)
  {
    if a == [] {
      assert a + b == b;
    } else {
      assert (a + b)[1..] == a[1..] + b;
      RecentOfAppend(a[1..], b, now);
    }
  }

  lemma {:induction false} RecentOfRecent(a: seq<int>, t0: int, t1: int)
    requires t0 <= t1
    ensures Recent(Recent(a, t0), t1) == Recent(a, t1)
  {
    if a != [] {
      RecentOfRecent(a[1..], t0, t1);
      if a[0] > t0 - HOUR {
        RecentOfAppend([a[0]], Recent(a[1..], t0), t1);
        assert [a[0]][1..] == [];
      } else {
        assert Recent(a, t0) == Recent(a[1..], t0) && Recent(a, t1) == Recent(a[1..], t1);
      }
    }
  }

  /** The pruned list decides as the full log does: at every moment it holds exactly the rule's own
      approvals of the last hour. */
  lemma {:induction false} PruningRefinesFullLog(maxPerHour: int, approvals: seq<int>, log: seq<int>, last: int, times: seq<int>)
    requires Recent(approvals, last) == Recent(log, last)
    requires forall i :: 0 <= i < |times| ==> last <= times[i]
    requires forall i, j :: 0 <= i < j < |times| ==> times[i] <= times[j]
    ensures Approvals(maxPerHour, approvals, times) == SimpleApprovals(maxPerHour, log, times)
    decreases |times|
  {
    if times != [] {
      var now := times[0];
      RecentOfRecent(approvals, last, now);
      RecentOfRecent(log, last, now);
      var recent := Recent(approvals, now);
      RecentOfRecent(approvals, now, now);
      RecentOfAppend(recent, [now], now);
      RecentOfAppend(log, [now], now);
      PruningRefinesFullLog(maxPerHour, if |recent| < maxPerHour then recent + [now] else recent,
                            if |recent| < maxPerHour then log + [now] else log, now, times[1..]);
    }
  }

  /** The rules after judging the requests of a run. */
  function AfterRun(rules: seq<Rule>, run: seq<Request>): seq<Rule>
    decreases |run|
  {
    if run == [] then rules else AfterRun(AfterAll(rules, run[0].now), run[1..])
  }

  function Times(run: seq<Request>): seq<int> {
    if run == [] then [] else [run[0].now] + Times(run[1..])
  }

  lemma {:induction false} AfterRunOfConcat(a: seq<Rule>, b: seq<Rule>, run: seq<Request>)
    ensures AfterRun(a + b, run) == AfterRun(a, run) + AfterRun(b, run)
    decreases |run|
  {
    hide After;
    if run != [] {
      var now := run[0].now;
      assert AfterAll(a + b, now) == AfterAll(a, now) + AfterAll(b, now);
      AfterRunOfConcat(AfterAll(a, now), AfterAll(b, now), run[1..]);
    }
  }

  lemma {:induction false} StatelessAfterRun(rules: seq<Rule>, run: seq<Request>)
    requires forall i :: 0 <= i < |rules| ==> !rules[i].RateLimit?
    ensures AfterRun(rules, run) == rules
    decreases |run|
  {
    if run != [] {
      assert AfterAll(rules, run[0].now) == rules;
      StatelessAfterRun(rules, run[1..]);
    }
  }

  /** After any run a rate limit has, of the last hour, exactly its own approvals of the run. */
  lemma {:induction false} RateLimitAfterRun(maxPerHour: int, approvals: seq<int>, log: seq<int>, last: int, run: seq<Request>, now: int)
    returns (kept: seq<int>)
    requires Recent(approvals, last) == Recent(log, last) && last <= now
    requires InTimeOrder(run) && forall i :: 0 <= i < |run| ==> last <= run[i].now <= now
    ensures AfterRun([RateLimit(maxPerHour, approvals)], run) == [RateLimit(maxPerHour, kept)]
    ensures Recent(kept, now) == Recent(log + SimpleApprovals(maxPerHour, log, Times(run)), now)
    decreases |run|
  {
    if run == [] {
      kept := approvals;
      RecentOfRecent(approvals, last, now);
      RecentOfRecent(log, last, now);
      assert log + [] == log;
    } else {
      var t := run[0].now;
      RecentOfRecent(approvals, last, t);
      RecentOfRecent(log, last, t);
      var recent := Recent(approvals, t);
      RecentOfRecent(approvals, t, t);
      RecentOfAppend(recent, [t], t);
      RecentOfAppend(log, [t], t);
      assert AfterAll([RateLimit(maxPerHour, approvals)], t) ==
             [RateLimit(maxPerHour, if |recent| < maxPerHour then recent + [t] else recent)];
      hide Recent;
      var later := if |recent| < maxPerHour then log + [t] else log;
      kept := RateLimitAfterRun(maxPerHour, if |recent| < maxPerHour then recent + [t] else recent, later, t, run[1..], now);
      SimpleOneMore(maxPerHour, log, t, Times(run[1..]));
      assert Times(run) == [t] + Times(run[1..]);
    }
  }

  lemma SimpleOneMore(maxPerHour: int, log: seq<int>, t: int, times: seq<int>)
    ensures var later := if |Recent(log, t)| < maxPerHour then log + [t] else log;
            log + SimpleApprovals(maxPerHour, log, [t] + times) == later + SimpleApprovals(maxPerHour, later, times)
  {
    hide Recent;
    assert ([t] + times)[1..] == times;
    var rest := SimpleApprovals(maxPerHour, log + [t], times);
    assert log + ([t] + rest) == log + [t] + rest;
  }

  // ---- The treasury preset

  datatype TreasuryOptions = TreasuryOptions(
    maxHbar: Option<real>, allowedRecipients: Option<seq<string>>, allowedTypes: Option<seq<string>>, maxPerHour: Option<int>)

  function ToSet(s: seq<string>): set<string> {
    set x | x in s
  }

  function RateRules(o: TreasuryOptions): seq<Rule> {
    if o.maxPerHour.Some? && o.maxPerHour.value != 0 then [RateLimit(o.maxPerHour.value, [])] else []
  }

  /** A limit of zero counts as no limit. */
  function TreasuryRules(o: TreasuryOptions): seq<Rule> {
    (if o.maxHbar.Some? && o.maxHbar.value != 0.0 then [MaxAmount(o.maxHbar.value)] else [])
    + (if o.allowedRecipients.Some? then [AllowedRecipients(ToSet(o.allowedRecipients.value))] else [])
    + [AllowedTypes(ToSet(if o.allowedTypes.Some? then o.allowedTypes.value
                          else ["TransferTransaction", "TokenAssociateTransaction"]))]
    + RateRules(o)
  }

  method CreateTreasuryAgentPolicy(o: TreasuryOptions) returns (policy: Engine)
    ensures fresh(policy) && policy.rules == TreasuryRules(o)
  {
    policy := new Engine();
    if o.maxHbar.Some? && o.maxHbar.value != 0.0 {
      policy.AddRule(MaxAmount(o.maxHbar.value));
    }
    if o.allowedRecipients.Some? {
      policy.AddRule(AllowedRecipients(ToSet(o.allowedRecipients.value)));
    }
    policy.AddRule(AllowedTypes(ToSet(if o.allowedTypes.Some? then o.allowedTypes.value
                                      else ["TransferTransaction", "TokenAssociateTransaction"])));
    if o.maxPerHour.Some? && o.maxPerHour.value != 0 {
      policy.AddRule(RateLimit(o.maxPerHour.value, []));
    }
  }

  lemma AllApproveOfConcat(a: seq<Rule>, b: seq<Rule>, tx: TxDetails, now: int)
    ensures AllApprove(a + b, tx, now) <==> AllApprove(a, tx, now) && AllApprove(b, tx, now)
  {
    hide Judge;
    if AllApprove(a + b, tx, now) {
      forall i | 0 <= i < |a| ensures Judge(a[i], tx, now) == Approve { assert (a + b)[i] == a[i]; }
      forall i | 0 <= i < |b| ensures Judge(b[i], tx, now) == Approve { assert (a + b)[|a| + i] == b[i]; }
    }
  }

  lemma OneRule(rule: Rule, tx: TxDetails, now: int)
    ensures AllApprove([rule], tx, now) <==> Judge(rule, tx, now) == Approve
  {
    hide Judge;
    assert [rule][0] == rule;
  }

  /** How often the preset's rate limit itself approved in the hour up to `now`, over a run. */
  function RateUsed(o: TreasuryOptions, run: seq<Request>, now: int): nat {
    if o.maxPerHour.None? then 0 else |Recent(SimpleApprovals(o.maxPerHour.value, [], Times(run)), now)|
  }

  /** The type's name, or where that is missing its other name, is one of these. */
  predicate HasType(tx: TxDetails, types: seq<string>) {
    if tx.typeName.Some? && tx.typeName.value != "" then tx.typeName.value in types
    else tx.transactionType.Some? && tx.transactionType.value != "" && tx.transactionType.value in types
  }

  predicate WithinLimits(o: TreasuryOptions, t: Transfer, amount: real) {
    && (o.maxHbar.Some? && o.maxHbar.value != 0.0 ==>
          -(o.maxHbar.value * 100000000.0) <= amount <= o.maxHbar.value * 100000000.0)
    && (o.allowedRecipients.Some? && amount > 0.0 ==> t.accountId in o.allowedRecipients.value)
  }

  /** The rules of the preset that keep no state. */
  lemma StatelessTreasury(o: TreasuryOptions, tx: TxDetails, now: int) returns (rules: seq<Rule>)
    ensures forall i :: 0 <= i < |rules| ==> !rules[i].RateLimit?
    ensures TreasuryRules(o) == rules + RateRules(o)
    ensures AllApprove(rules, tx, now) <==>
            var types := if o.allowedTypes.Some? then o.allowedTypes.value else ["TransferTransaction", "TokenAssociateTransaction"];
            && HasType(tx, types)
            && (tx.transfers.Some? ==>
                  forall i :: 0 <= i < |tx.transfers.value| && tx.transfers.value[i].amount.Some? ==>
                    WithinLimits(o, tx.transfers.value[i], tx.transfers.value[i].amount.value))
  {
    var types := AllowedTypes(ToSet(if o.allowedTypes.Some? then o.allowedTypes.value
                                    else ["TransferTransaction", "TokenAssociateTransaction"]));
    var a := if o.maxHbar.Some? && o.maxHbar.value != 0.0 then [MaxAmount(o.maxHbar.value)] else [];
    var b := if o.allowedRecipients.Some? then [AllowedRecipients(ToSet(o.allowedRecipients.value))] else [];
    rules := a + b + [types];
    AllApproveOfConcat(a, b, tx, now);
    AllApproveOfConcat(a + b, [types], tx, now);
    OneRule(types, tx, now);
    if o.maxHbar.Some? { OneRule(MaxAmount(o.maxHbar.value), tx, now); }
    if o.allowedRecipients.Some? { OneRule(AllowedRecipients(ToSet(o.allowedRecipients.value)), tx, now); }
  }

  lemma {:induction false} RateApprovesExactly(o: TreasuryOptions, run: seq<Request>, tx: TxDetails, now: int)
    requires InTimeOrder(run) && forall i :: 0 <= i < |run| ==> run[i].now <= now
    ensures AllApprove(AfterRun(RateRules(o), run), tx, now) <==>
            (o.maxPerHour.Some? && o.maxPerHour.value != 0 ==> RateUsed(o, run, now) < o.maxPerHour.value)
  {
    hide SimpleApprovals, AfterRun;
    if RateRules(o) == [] {
      StatelessAfterRun([], run);
    } else {
      var last := if run == [] then now else run[0].now;
      var kept := RateLimitAfterRun(o.maxPerHour.value, [], [], last, run, now);
      var log := SimpleApprovals(o.maxPerHour.value, [], Times(run));
      assert [] + log == log;
      OneRule(RateLimit(o.maxPerHour.value, kept), tx, now);
    }
  }

  /** After any run of requests, a treasury policy approves exactly the transactions of an allowed type
      whose transfers, as far as their amounts are numbers, stay within the limit (where one other than
      zero is given) and, where positive, go to allowed recipients (where a list is given), as long as
      (where a rate other than zero is given) its rate limit has approved fewer than that in the last
      hour. */
  lemma {:induction false} TreasuryApprovesExactly(o: TreasuryOptions, run: seq<Request>, tx: TxDetails, now: int)
    requires InTimeOrder(run) && forall i :: 0 <= i < |run| ==> run[i].now <= now
    ensures AllApprove(AfterRun(TreasuryRules(o), run), tx, now) <==>
            var types := if o.allowedTypes.Some? then o.allowedTypes.value else ["TransferTransaction", "TokenAssociateTransaction"];
            && HasType(tx, types)
            && (tx.transfers.Some? ==>
                  forall i :: 0 <= i < |tx.transfers.value| && tx.transfers.value[i].amount.Some? ==>
                    WithinLimits(o, tx.transfers.value[i], tx.transfers.value[i].amount.value))
            && (o.maxPerHour.Some? && o.maxPerHour.value != 0 ==> RateUsed(o, run, now) < o.maxPerHour.value)
  {
    hide TreasuryRules, WithinLimits, HasType, RateUsed, AfterRun, AllApprove;
    var stateless := StatelessTreasury(o, tx, now);
    var rate := RateRules(o);
    AfterRunOfConcat(stateless, rate, run);
    StatelessAfterRun(stateless, run);
    AllApproveOfConcat(stateless, AfterRun(rate, run), tx, now);
    RateApprovesExactly(o, run, tx, now);
  }

  /** What a rate limit keeps are the approvals less than an hour old, each as often as it was made. */
  lemma {:induction false} RecentExactly(approvals: seq<int>, now: int, x: int)
    ensures multiset(Recent(approvals, now))[x] == if x > now - 3600000 then multiset(approvals)[x] else 0
    decreases |approvals|
  {
    if approvals != [] {
      RecentExactly(approvals[1..], now, x);
      assert approvals == [approvals[0]] + approvals[1..];
    }
  }

  /** A time window approves exactly in the hours from its start up to its end, counted in UTC and, if it
      ends no later than it starts in the day, through midnight. */
  lemma TimeWindowExactly(startHour: int, endHour: int, tx: TxDetails, day: nat, hour: int, ms: int)
    requires 0 <= hour < 24 && 0 <= ms < 3600000
    ensures Judge(TimeWindow(startHour, endHour), tx, (day * 24 + hour) * 3600000 + ms) == Approve <==>
            if startHour <= endHour then startHour <= hour && hour < endHour else startHour <= hour || hour < endHour
  {
    assert ((day * 24 + hour) * 3600000 + ms) / HOUR == day * 24 + hour;
  }

  /** The failures an evaluation lists are one list: every rule that rejects or throws, once, in order, and
      with what it did. */
  lemma ListedExactly(f: seq<Failure>, rules: seq<Rule>, tx: TxDetails, now: int, i: nat)
    requires ListsFailures(f, rules, |rules|, tx, now) && i < |rules|
    ensures Judge(rules[i], tx, now) == Reject <==> Failure(i, false) in f
    ensures Judge(rules[i], tx, now) == Throw <==> Failure(i, true) in f
    ensures forall k, l :: 0 <= k < l < |f| ==> f[k].rule < f[l].rule < |rules|
  {
    hide Judge;
    if Judge(rules[i], tx, now) != Approve {
      assert Names(f, i);
      var k :| 0 <= k < |f| && f[k].rule == i;
      assert f[k] == Failure(i, Judge(rules[i], tx, now) == Throw);
    }
  }
}
