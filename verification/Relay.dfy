/** Relaying a request with retries: channel selection with its per-group retry counter,
    the retry decisions, and what happens to the pre-charge. What upstream, the channel
    cache and the request handlers do is an input, turn by turn. */
module Relay {

  import opened Basics
  import opened Billing

  // ---- Retry decisions ----

  /** The parts of an upstream error that the retry decision looks at: `alwaysSkip` and
      `retryable` are the configured verdicts on its error code and on its status code. */
  datatype Failure =
    | ApiFailure(channelError: bool, skipRetry: bool, status: int, alwaysSkip: bool, retryable: bool)
    | TaskFailure(status: int, localError: bool, alwaysSkip: bool)

  predicate ShouldRetry(f: Failure, affinitySkip: bool, specificChannel: bool, left: int)
    requires f.ApiFailure?
  {
    if affinitySkip then false
    else if f.channelError then true
    else if f.skipRetry then false
    else if left <= 0 then false
    else if specificChannel then false
    else if 200 <= f.status < 300 then false
    else if f.status < 100 || f.status > 599 then true
    else if f.alwaysSkip then false
    else f.retryable
  }

  predicate ShouldRetryTask(f: Failure, affinitySkip: bool, specificChannel: bool, left: int)
    requires f.TaskFailure?
  {
    if affinitySkip then false
    else if left <= 0 then false
    else if specificChannel then false
    else if f.status == 429 then true
    else if f.status == 307 then true
    else if f.status / 100 == 5 then !f.alwaysSkip
    else if f.status == 400 then false
    else if f.status == 408 then false
    else if f.localError then false
    else if f.status / 100 == 2 then false
    else true
  }

  predicate Retries(f: Failure, affinitySkip: bool, specificChannel: bool, left: int) {
    if f.ApiFailure? then ShouldRetry(f, affinitySkip, specificChannel, left)
    else ShouldRetryTask(f, affinitySkip, specificChannel, left)
  }

  // ---- Choosing a channel ----

  /** `auto` tokens walk a list of `groups`; `crossGroup` moves on when a group's retries are
      used up. A `locked` task channel is never chosen anew. */
  datatype Routing = Routing(auto: bool, groups: nat, crossGroup: bool, locked: bool,
                             specificChannel: bool, retryTimes: int)

  /** The retry counter, its reset mark, and the index of the group to try next. */
  datatype Cursor = Cursor(retry: int, reset: bool, group: nat)

  datatype Selection = Selection(cursor: Cursor, found: bool)

  function SelectAuto(r: Routing, picks: (nat, int) -> bool, c: Cursor): (s: Selection)
    ensures s.cursor.group >= c.group
    decreases r.groups - c.group
  {
    if c.group >= r.groups then Selection(c, false)
    else if !picks(c.group, c.retry) then SelectAuto(r, picks, Cursor(0, c.reset, c.group + 1))
    else if r.crossGroup && c.retry >= r.retryTimes then Selection(Cursor(0, true, c.group + 1), true)
    else Selection(c, true)
  }

  function Select(r: Routing, picks: (nat, int) -> bool, c: Cursor): Selection {
    if r.auto then SelectAuto(r, picks, c) else Selection(c, picks(0, c.retry))
  }

  function Advance(c: Cursor): Cursor {
    if c.reset then c.(reset := false) else c.(retry := c.retry + 1)
  }

  class RetryParam {
    var retry: int
    var resetNextTry: bool
    var group: nat

    constructor (group: nat)
      ensures View() == Cursor(0, false, group)
    {
      retry, resetNextTry, this.group := 0, false, group;
    }

    function View(): Cursor
      reads this
    {
      Cursor(retry, resetNextTry, group)
    }

    method IncreaseRetry()
      modifies this
      ensures View() == Advance(old(View()))
    {
      if resetNextTry {
        resetNextTry := false;
        return;
      }
      retry := retry + 1;
    }

    method SelectChannel(r: Routing, picks: (nat, int) -> bool) returns (found: bool)
      modifies this
      ensures Selection(View(), found) == Select(r, picks, old(View()))
    {
      if !r.auto {
        return picks(0, retry);
      }
      var start := group;
      var i := start;
      while i < r.groups
        invariant i >= start && group == i
        invariant i > start ==> retry == 0
        invariant SelectAuto(r, picks, old(View())) == SelectAuto(r, picks, View())
        decreases r.groups - i
      {
        var priority := retry;
        if i > start {
          priority := 0;
        }
        if !picks(i, priority) {
          group := i + 1;
          retry := 0;
          i := i + 1;
          continue;
        }
        if r.crossGroup && priority >= r.retryTimes {
          group := i + 1;
          retry := 0;
          resetNextTry := true;
        } else {
          group := i;
        }
        return true;
      }
      return false;
    }
  }

  // ---- Money along the way ----

  /** A request has a billing session once a pre-charge succeeded; before, only balances. */
  datatype Money =
    | Unopened(fund: int, token: int, funding: Funding, playground: bool)
    | Opened(session: Session)

  datatype MoneyOp =
    | Charge(quota: nat, trust: bool, tokenOk: bool, fundOk: bool)
    | On(op: Op)

  function MoneyStep(m: Money, op: MoneyOp): Money {
    match op
    case Charge(quota, trust, tokenOk, fundOk) =>
      if m.Opened? then m
      else
        var r := PreConsume(NewSession(m.fund, m.token, m.funding, m.playground), quota, trust, tokenOk, fundOk);
        if r.ok then Opened(r.session) else m
    case On(op) => if m.Opened? then Opened(Apply(m.session, op)) else m
  }

  function MoneyRun(m: Money, ops: seq<MoneyOp>): Money {
    if ops == [] then m else MoneyStep(MoneyRun(m, ops[..|ops| - 1]), ops[|ops| - 1])
  }

  function Fund(m: Money): int { if m.Opened? then m.session.fund else m.fund }
  function Token(m: Money): int { if m.Opened? then m.session.token else m.token }
  predicate IsSettled(m: Money) { m.Opened? && m.session.settled }
  predicate IsRefunded(m: Money) { m.Opened? && m.session.refunded }

  // ---- The retry loop ----

  /** One turn of the loop, as the outside world answers it. */
  datatype Turn = Turn(
    picks: (nat, int) -> bool,          // does a group offer a channel at a priority
    setupOk: bool,                      // the channel's context could be set up
    billingOk: bool,                    // tiered billing for the chosen group
    bodyOk: bool,                       // the stored request body could be rewound
    affinitySkip: bool,
    prepared: seq<MoneyOp>,             // what happens to the money before the attempt
    ops: seq<MoneyOp>,                  // and during it
    result: Option<Failure>)            // None is success

  datatype Outcome = Outcome(attempts: nat, failed: bool, ops: seq<MoneyOp>)

  predicate Ready(turn: Turn) {
    turn.setupOk && turn.billingOk && turn.bodyOk
  }

  function Chosen(r: Routing, turn: Turn, c: Cursor, first: bool): Selection {
    if first || r.locked then Selection(c, true) else Select(r, turn.picks, c)
  }

  function GroupsLeft(r: Routing, c: Cursor): nat {
    if c.group < r.groups then r.groups - c.group else 0
  }

  function TriesLeft(r: Routing, c: Cursor): nat {
    if c.retry <= r.retryTimes then r.retryTimes - c.retry + 1 else 0
  }

  /** The loop from turn `k` on. The first turn uses the channel already chosen (`first`);
      `failed` says whether the turn before left an error. */
  function Loop(r: Routing, script: nat -> Turn, k: nat, c: Cursor, first: bool, failed: bool): Outcome
    requires !c.reset
    decreases GroupsLeft(r, c), TriesLeft(r, c)
  {
    if c.retry > r.retryTimes then Outcome(0, failed, [])
    else
      var turn := script(k);
      var s := Chosen(r, turn, c, first);
      var ops := turn.prepared + turn.ops;
      if !s.found then Outcome(0, true, [])
      else if !Ready(turn) then Outcome(0, true, turn.prepared)
      else if turn.result.None? then Outcome(1, false, ops)
      else if !Retries(turn.result.value, turn.affinitySkip, r.specificChannel, r.retryTimes - s.cursor.retry)
      then Outcome(1, true, ops)
      else
        ChosenProgresses(r, turn, c, first);
        var rest := Loop(r, script, k + 1, Advance(s.cursor), false, true);
        Outcome(1 + rest.attempts, rest.failed, ops + rest.ops)
  }

  /** A turn either leaves the group or uses up one of its retries. */
  lemma ChosenProgresses(r: Routing, turn: Turn, c: Cursor, first: bool)
    requires !c.reset && c.retry <= r.retryTimes && Chosen(r, turn, c, first).found
    ensures
      var c' := Advance(Chosen(r, turn, c, first).cursor);
      && !c'.reset
      && (c' == c.(retry := c.retry + 1)
          || (r.auto && c.group < c'.group <= r.groups && 0 <= c'.retry <= 1))
      && (GroupsLeft(r, c') < GroupsLeft(r, c)
          || (GroupsLeft(r, c') == GroupsLeft(r, c) && TriesLeft(r, c') < TriesLeft(r, c)))
  {
    if r.auto && !first && !r.locked {
      SelectAutoCases(r, turn.picks, c);
    }
  }

  lemma {:induction false} SelectAutoCases(r: Routing, picks: (nat, int) -> bool, c: Cursor)
    requires !c.reset && SelectAuto(r, picks, c).found
    ensures
      var c' := SelectAuto(r, picks, c).cursor;
      || c' == c
      || (c' == Cursor(0, true, c.group + 1) && r.crossGroup && c.retry >= r.retryTimes && c.group < r.groups)
      || (c'.retry == 0 && !c'.reset && c.group < c'.group < r.groups)
      || (c'.retry == 0 && c'.reset && c.group + 1 < c'.group <= r.groups && r.retryTimes <= 0)
    decreases r.groups - c.group
  {
    if !picks(c.group, c.retry) {
      SelectAutoCases(r, picks, Cursor(0, c.reset, c.group + 1));
    }
  }

  ghost function Prepend(attempts: nat, log: seq<MoneyOp>, rest: Outcome): Outcome {
    Outcome(attempts + rest.attempts, rest.failed, log + rest.ops)
  }

  lemma PrependTurn(attempts: nat, log: seq<MoneyOp>, ops: seq<MoneyOp>, rest: Outcome)
    ensures Prepend(attempts, log, Outcome(1 + rest.attempts, rest.failed, ops + rest.ops))
            == Prepend(attempts + 1, log + ops, rest)
  {
    assert log + (ops + rest.ops) == log + ops + rest.ops;
  }

  /** The loop as the handlers run it. The log lists what happened to the money, in order. */
  method RetryLoop(r: Routing, script: nat -> Turn, param: RetryParam)
    returns (attempts: nat, failed: bool, log: seq<MoneyOp>)
    requires !param.resetNextTry
    modifies param
    ensures Outcome(attempts, failed, log) == Loop(r, script, 0, old(param.View()), true, false)
  {
    attempts, failed, log := 0, false, [];
    var k, first := 0, true;
    ghost var whole := Loop(r, script, 0, param.View(), true, false);
    while param.retry <= r.retryTimes
      invariant !param.resetNextTry
      invariant whole == Prepend(attempts, log, Loop(r, script, k, param.View(), first, failed))
      decreases GroupsLeft(r, param.View()), TriesLeft(r, param.View())
    {
      var turn := script(k);
      ghost var c := param.View();
      var found := true;
      if !first && !r.locked {
        found := param.SelectChannel(r, turn.picks);
      }
      assert Selection(param.View(), found) == Chosen(r, turn, c, first);
      if !found {
        return attempts, true, log;
      }
      if !turn.setupOk || !turn.billingOk || !turn.bodyOk {
        return attempts, true, log + turn.prepared;
      }
      ghost var attempts0, log0 := attempts, log;
      attempts := attempts + 1;
      log := log + (turn.prepared + turn.ops);
      if turn.result.None? {
        return attempts, false, log;
      }
      failed := true;
      if !Retries(turn.result.value, turn.affinitySkip, r.specificChannel, r.retryTimes - param.retry) {
        return;
      }
      ChosenProgresses(r, turn, c, first);
      first := false;
      k := k + 1;
      param.IncreaseRetry();
      PrependTurn(attempts0, log0, turn.prepared + turn.ops, Loop(r, script, k, param.View(), false, true));
    }
  }

  // ---- How many attempts a request can take ----

  function Budget(r: Routing, c: Cursor): nat
    requires r.retryTimes >= 0
  {
    if !r.auto || r.locked then TriesLeft(r, c)
    else if GroupsLeft(r, c) == 0 then 0
    else TriesLeft(r, c) + (GroupsLeft(r, c) - 1) * (r.retryTimes + 1)
  }

  lemma FewerGroupsFewerTries(few: nat, many: nat, tries: nat)
    requires few <= many
    ensures few * tries <= many * tries
  {
  }

  lemma OneMoreGroup(groups: nat, tries: nat)
    ensures tries + groups * tries == (groups + 1) * tries
  {
  }

  /** Any budget is at most that of fresh counters in all groups left. */
  lemma BudgetAtMost(r: Routing, c: Cursor)
    requires r.retryTimes >= 0 && c.retry >= 0 && r.auto && !r.locked
    ensures Budget(r, c) <= GroupsLeft(r, c) * (r.retryTimes + 1)
  {
    var left := GroupsLeft(r, c);
    if left > 0 {
      OneMoreGroup(left - 1, r.retryTimes + 1);
    }
  }

  lemma LaterGroupSpends(r: Routing, c: Cursor, c': Cursor)
    requires 0 <= c.retry <= r.retryTimes && c'.retry >= 0 && r.auto && !r.locked && c.group < c'.group <= r.groups
    ensures 1 + Budget(r, c') <= Budget(r, c)
  {
    BudgetAtMost(r, c');
    FewerGroupsFewerTries(GroupsLeft(r, c'), GroupsLeft(r, c) - 1, r.retryTimes + 1);
  }

  lemma TurnSpendsBudget(r: Routing, turn: Turn, c: Cursor)
    requires !c.reset && 0 <= c.retry <= r.retryTimes && Chosen(r, turn, c, false).found
    ensures 1 + Budget(r, Advance(Chosen(r, turn, c, false).cursor)) <= Budget(r, c)
  {
    ChosenProgresses(r, turn, c, false);
    var c' := Advance(Chosen(r, turn, c, false).cursor);
    if c' != c.(retry := c.retry + 1) {
      LaterGroupSpends(r, c, c');
    } else if r.auto && !r.locked {
      assert GroupsLeft(r, c') == GroupsLeft(r, c) && TriesLeft(r, c') + 1 == TriesLeft(r, c);
    }
  }

  lemma {:induction false} AttemptsWithinBudget(r: Routing, script: nat -> Turn, k: nat, c: Cursor, failed: bool)
    requires !c.reset && c.retry >= 0 && r.retryTimes >= 0
    ensures Loop(r, script, k, c, false, failed).attempts <= Budget(r, c)
    decreases GroupsLeft(r, c), TriesLeft(r, c)
  {
    var turn := script(k);
    var s := Chosen(r, turn, c, false);
    if c.retry <= r.retryTimes && s.found {
      TurnSpendsBudget(r, turn, c);
      ChosenProgresses(r, turn, c, false);
      AttemptsWithinBudget(r, script, k + 1, Advance(s.cursor), true);
    }
  }

  /** How many groups a request may use: those from its first one on, for an `auto` token. */
  function UsableGroups(r: Routing, group: nat): nat {
    if r.auto && !r.locked && group < r.groups then r.groups - group else 1
  }

  /** A request makes at most `retryTimes + 1` attempts per usable group. */
  lemma AttemptBound(r: Routing, script: nat -> Turn, group: nat)
    requires r.retryTimes >= 0
    ensures Loop(r, script, 0, Cursor(0, false, group), true, false).attempts
            <= UsableGroups(r, group) * (r.retryTimes + 1)
  {
    var c := Cursor(0, false, group);
    AttemptsWithinBudget(r, script, 1, Advance(c), true);
    assert 1 + Budget(r, Advance(c)) <= UsableGroups(r, group) * (r.retryTimes + 1) by {
      var left := GroupsLeft(r, c);
      if r.auto && !r.locked && left > 0 {
        OneMoreGroup(left - 1, r.retryTimes + 1);
      }
    }
  }

  // ---- When a request makes at most `retryTimes + 1` attempts in all ----

  /** Every group but `group` offers a channel, and every attempt fails with a channel error. */
  function MovingOn(group: nat): Turn {
    Turn((g, p) => g != group, true, true, true, false, [], [], Some(ApiFailure(true, false, 500, false, false)))
  }

  /** Once in a group that offers channels, such a failure uses up the retries left there. */
  lemma {:induction false} MovingOnUsesRetries(r: Routing, group: nat, k: nat, c: Cursor, failed: bool)
    requires r.auto && !r.locked && r.retryTimes >= 1 && group < c.group < r.groups
    requires !c.reset && 0 <= c.retry <= r.retryTimes
    ensures Loop(r, _ => MovingOn(group), k, c, false, failed).attempts >= TriesLeft(r, c)
    decreases TriesLeft(r, c)
  {
    var turn := MovingOn(group);
    assert turn.picks(c.group, c.retry);
    if c.retry < r.retryTimes {
      assert Chosen(r, turn, c, false) == Selection(c, true);
      MovingOnUsesRetries(r, group, k + 1, Advance(c), true);
    }
  }

  lemma MovingOnExceeds(r: Routing, group: nat)
    requires r.auto && !r.locked && r.retryTimes >= 1 && group + 1 < r.groups
    ensures Loop(r, _ => MovingOn(group), 0, Cursor(0, false, group), true, false).attempts >= r.retryTimes + 2
  {
    var turn, c := MovingOn(group), Cursor(1, false, group);
    var next := Cursor(0, false, group + 1);
    assert !turn.picks(group, 1) && turn.picks(group + 1, 0);
    assert SelectAuto(r, turn.picks, next) == Selection(next, true);
    assert Chosen(r, turn, c, false) == Selection(next, true);
    MovingOnUsesRetries(r, group, 2, Advance(next), true);
    assert Loop(r, _ => MovingOn(group), 1, c, false, true).attempts >= r.retryTimes + 1;
  }

  /** Whatever happens, a request makes at most `retryTimes + 1` attempts: exactly when it
      cannot leave its group, or may not retry at all. Otherwise a group that runs out of
      channels hands a fresh counter to the next one, with or without cross-group retries. */
  lemma SingleBoundIff(r: Routing, group: nat)
    requires r.retryTimes >= 0
    ensures
      (forall script :: Loop(r, script, 0, Cursor(0, false, group), true, false).attempts <= r.retryTimes + 1)
      <==> !r.auto || r.locked || r.groups <= group + 1 || r.retryTimes == 0
  {
    if !r.auto || r.locked || r.groups <= group + 1 {
      forall script: nat -> Turn {
        AttemptBound(r, script, group);
      }
    } else if r.retryTimes > 0 {
      MovingOnExceeds(r, group);
    }
  }

  // ---- The bound per group is reached ----

  /** Every turn offers a channel in every group and fails in a way worth retrying. */
  ghost predicate AlwaysFailing(r: Routing, script: nat -> Turn) {
    forall k :: Ready(script(k)) && script(k).result.Some? &&
                (forall g, p :: script(k).picks(g, p)) &&
                (forall left :: left > 0 ==>
                   Retries(script(k).result.value, script(k).affinitySkip, r.specificChannel, left))
  }

  lemma {:induction false} FailingUsesBudget(r: Routing, script: nat -> Turn, k: nat, c: Cursor, failed: bool)
    requires r.auto && r.crossGroup && !r.locked && r.retryTimes >= 1 && AlwaysFailing(r, script)
    requires !c.reset && 0 <= c.retry <= r.retryTimes
    ensures Loop(r, script, k, c, false, failed).attempts == Budget(r, c)
    decreases GroupsLeft(r, c), TriesLeft(r, c)
  {
    var turn := script(k);
    assert Ready(turn) && turn.picks(c.group, c.retry);
    if c.group < r.groups {
      var s := Chosen(r, turn, c, false);
      assert r.retryTimes - s.cursor.retry > 0;
      ChosenProgresses(r, turn, c, false);
      FailingUsesBudget(r, script, k + 1, Advance(s.cursor), true);
      if c.retry == r.retryTimes {
        var left := GroupsLeft(r, c);
        assert left > 1 ==> (left - 1) * (r.retryTimes + 1) == r.retryTimes + 1 + (left - 2) * (r.retryTimes + 1);
      }
    }
  }

  /** The bound is reached: with cross-group retries a persistent failure is tried
      `retryTimes + 1` times in every group, not `retryTimes + 1` times in all. */
  lemma CrossGroupUsesEveryGroup(r: Routing, script: nat -> Turn, group: nat)
    requires r.auto && r.crossGroup && !r.locked && r.retryTimes >= 1 && group < r.groups
    requires AlwaysFailing(r, script)
    ensures Loop(r, script, 0, Cursor(0, false, group), true, false).attempts
            == (r.groups - group) * (r.retryTimes + 1)
  {
    var c := Cursor(0, false, group);
    var turn := script(0);
    assert Ready(turn) && turn.result.Some? && r.retryTimes - c.retry > 0;
    FailingUsesBudget(r, script, 1, Advance(c), true);
    var left := GroupsLeft(r, c);
    assert r.retryTimes + 1 + (left - 1) * (r.retryTimes + 1) == left * (r.retryTimes + 1);
  }

  /** A request fails exactly when no attempt succeeded, unless no turn was ever taken. */
  lemma {:induction false} FailsIffNoAttemptSucceeded(r: Routing, script: nat -> Turn, k: nat, c: Cursor, first: bool,
                                                      failed: bool)
    requires !c.reset && (c.retry <= r.retryTimes || failed)
    ensures
      var o := Loop(r, script, k, c, first, failed);
      o.failed <==> forall j :: k <= j < k + o.attempts ==> script(j).result.Some?
    decreases GroupsLeft(r, c), TriesLeft(r, c)
  {
    var turn, o := script(k), Loop(r, script, k, c, first, failed);
    if c.retry <= r.retryTimes {
      var s := Chosen(r, turn, c, first);
      if s.found && Ready(turn) && turn.result.Some? &&
         Retries(turn.result.value, turn.affinitySkip, r.specificChannel, r.retryTimes - s.cursor.retry) {
        ChosenProgresses(r, turn, c, first);
        FailsIffNoAttemptSucceeded(r, script, k + 1, Advance(s.cursor), false, true);
      }
    }
  }

  /** A negative retry setting skips the loop: no attempt, yet no error either. */
  lemma NegativeRetriesSkipTheLoop(r: Routing, script: nat -> Turn, group: nat)
    requires r.retryTimes < 0
    ensures Loop(r, script, 0, Cursor(0, false, group), true, false) == Outcome(0, false, [])
  {
  }
}
