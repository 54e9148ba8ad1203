/** What a relayed request costs: the pre-charge is kept on success and handed back on
    failure, whatever the retries did in between. */
module RelayMoney {

  import opened Basics
  import opened Billing
  import opened Relay

  /** `refunds` counts the refund calls, `inserted` the tasks stored. */
  datatype Relayed = Relayed(money: Money, attempts: nat, failed: bool, refunds: nat, inserted: nat)

  /** A synchronous request: pre-charge unless the model is free, retry, refund on failure. */
  method RelayRequest(r: Routing, script: nat -> Turn, param: RetryParam, money: Money, charge: Option<MoneyOp>)
    returns (out: Relayed)
    requires !param.resetNextTry && money.Unopened?
    requires charge.Some? ==> charge.value.Charge?
    modifies param
    ensures out == Request(r, script, old(param.View()), money, charge)
  {
    var current, failed := money, false;
    if charge.Some? {
      current := MoneyStep(current, charge.value);
      if current.Unopened? {
        return Relayed(current, 0, true, 0, 0);
      }
    }
    var attempts, failed', log := RetryLoop(r, script, param);
    failed := failed';
    current := MoneyRun(current, log);
    var refunds := 0;
    if failed {
      if current.Opened? {
        current := MoneyStep(current, On(OpRefund));
        refunds := 1;
      }
    }
    return Relayed(current, attempts, failed, refunds, 0);
  }

  function Request(r: Routing, script: nat -> Turn, c: Cursor, money: Money, charge: Option<MoneyOp>): Relayed
    requires !c.reset
  {
    var charged := if charge.Some? then MoneyStep(money, charge.value) else money;
    if charge.Some? && charged.Unopened? then Relayed(charged, 0, true, 0, 0)
    else
      var o := Loop(r, script, 0, c, true, false);
      var after := MoneyRun(charged, o.ops);
      Relayed(if o.failed then MoneyStep(after, On(OpRefund)) else after, o.attempts, o.failed,
              if o.failed && after.Opened? then 1 else 0, 0)
  }

  /** An asynchronous task: attempts pre-charge for themselves; success settles and stores
      it, failure refunds. The result is None when the handler breaks off: if the loop never
      ran, there is neither an error nor the result that settling reads. */
  method RelayTask(r: Routing, script: nat -> Turn, param: RetryParam, money: Money, settle: Op)
    returns (out: Option<Relayed>)
    requires !param.resetNextTry && money.Unopened? && settle.OpSettle?
    modifies param
    ensures out == Task(r, script, old(param.View()), money, settle)
  {
    var submitted := param.retry <= r.retryTimes;
    var attempts, failed, log := RetryLoop(r, script, param);
    var current := MoneyRun(money, log);
    var refunds, inserted := 0, 0;
    if !failed {
      if !submitted {
        return None;
      }
      if current.Opened? {
        current := MoneyStep(current, On(settle));
      }
      inserted := 1;
    }
    if failed {
      if current.Opened? {
        current := MoneyStep(current, On(OpRefund));
        refunds := 1;
      }
    }
    return Some(Relayed(current, attempts, failed, refunds, inserted));
  }

  function Task(r: Routing, script: nat -> Turn, c: Cursor, money: Money, settle: Op): Option<Relayed>
    requires !c.reset
  {
    if c.retry > r.retryTimes then None
    else
      var o := Loop(r, script, 0, c, true, false);
      var after := MoneyRun(money, o.ops);
      Some(Relayed(MoneyStep(after, On(if o.failed then OpRefund else settle)), o.attempts, o.failed,
                   if o.failed && after.Opened? then 1 else 0, if o.failed then 0 else 1))
  }

  // ---- Balances ----

  predicate AllOps(ops: seq<MoneyOp>, allowed: MoneyOp -> bool) {
    forall i :: 0 <= i < |ops| ==> allowed(ops[i])
  }

  ghost predicate AllTurns(script: nat -> Turn, allowed: MoneyOp -> bool) {
    forall k :: AllOps(script(k).prepared, allowed) && AllOps(script(k).ops, allowed)
  }

  predicate IsNoRefund(op: MoneyOp) { op != On(OpRefund) }

  predicate IsNoSettlement(op: MoneyOp) { !(op.On? && op.op.OpSettle?) }

  /** Handlers top up and settle; refunding is left to the code around the loop. */
  ghost predicate Disciplined(script: nat -> Turn) {
    AllTurns(script, IsNoRefund)
  }

  /** Attempts of a task leave the settling to the code after the loop. */
  ghost predicate DefersSettling(script: nat -> Turn) {
    AllTurns(script, IsNoSettlement)
  }

  ghost predicate Sound(fund0: int, token0: int, m: Money, phase: Phase) {
    match m
    case Unopened(fund, token, _, _) => fund == fund0 && token == token0 && phase.Open?
    case Opened(s) => Balanced(fund0, token0, s, phase)
  }

  ghost function PhaseAfter(m: Money, phase: Phase, op: MoneyOp): Phase {
    if m.Opened? && op.On? then NextPhase(m.session, phase, op.op) else phase
  }

  lemma StepIsSound(fund0: int, token0: int, m: Money, phase: Phase, op: MoneyOp)
    requires Sound(fund0, token0, m, phase) && (op.On? && op.op.OpSettle? ==> !IsRefunded(m))
    ensures Sound(fund0, token0, MoneyStep(m, op), PhaseAfter(m, phase, op))
  {
    if m.Unopened? && op.Charge? {
      PreConsumeBalances(m.fund, m.token, m.funding, m.playground, op.quota, op.trust, op.tokenOk, op.fundOk);
    } else if m.Opened? && op.On? {
      OpKeepsBalance(fund0, token0, m.session, phase, op.op);
    }
  }

  lemma {:induction false} RunIsSound(fund0: int, token0: int, m: Money, ops: seq<MoneyOp>) returns (phase: Phase)
    requires Sound(fund0, token0, m, Open) && AllOps(ops, IsNoRefund)
    ensures Sound(fund0, token0, MoneyRun(m, ops), phase) && !phase.Refunded?
    ensures !IsRefunded(MoneyRun(m, ops))
  {
    phase := Open;
    if ops != [] {
      var init, last := ops[..|ops| - 1], ops[|ops| - 1];
      var before := RunIsSound(fund0, token0, m, init);
      StepIsSound(fund0, token0, MoneyRun(m, init), before, last);
      phase := PhaseAfter(MoneyRun(m, init), before, last);
    }
  }

  /** What no turn does to the money, the loop does not do. */
  lemma {:induction false} LoopOpsAllowed(r: Routing, script: nat -> Turn, k: nat, c: Cursor, first: bool, failed: bool,
                                          allowed: MoneyOp -> bool)
    requires !c.reset && AllTurns(script, allowed)
    ensures AllOps(Loop(r, script, k, c, first, failed).ops, allowed)
    decreases GroupsLeft(r, c), TriesLeft(r, c)
  {
    var turn := script(k);
    assert AllOps(turn.prepared, allowed) && AllOps(turn.ops, allowed);
    if c.retry <= r.retryTimes {
      var s := Chosen(r, turn, c, first);
      if s.found && Ready(turn) && turn.result.Some? &&
         Retries(turn.result.value, turn.affinitySkip, r.specificChannel, r.retryTimes - s.cursor.retry) {
        ChosenProgresses(r, turn, c, first);
        LoopOpsAllowed(r, script, k + 1, Advance(s.cursor), false, true, allowed);
      }
    }
  }

  lemma LoopNeverRefunds(r: Routing, script: nat -> Turn, k: nat, c: Cursor, first: bool, failed: bool)
    requires !c.reset && Disciplined(script)
    ensures AllOps(Loop(r, script, k, c, first, failed).ops, IsNoRefund)
  {
    LoopOpsAllowed(r, script, k, c, first, failed, IsNoRefund);
  }

  predicate Playground(m: Money) { if m.Opened? then m.session.playground else m.playground }

  lemma {:induction false} RunKeepsPlayground(m: Money, ops: seq<MoneyOp>)
    ensures Playground(MoneyRun(m, ops)) == Playground(m)
  {
    if ops != [] {
      RunKeepsPlayground(m, ops[..|ops| - 1]);
    }
  }

  lemma {:induction false} RunStaysUnsettled(m: Money, ops: seq<MoneyOp>)
    requires !IsSettled(m) && AllOps(ops, IsNoSettlement)
    ensures !IsSettled(MoneyRun(m, ops))
  {
    if ops != [] {
      RunStaysUnsettled(m, ops[..|ops| - 1]);
      assert IsNoSettlement(ops[|ops| - 1]);
    }
  }

  lemma FinalRefund(fund0: int, token0: int, m: Money, phase: Phase)
    requires Sound(fund0, token0, m, phase) && !IsRefunded(m)
    ensures
      var m' := MoneyStep(m, On(OpRefund));
      && (!IsSettled(m') ==> Fund(m') == fund0 && Token(m') == token0)
      && (IsSettled(m') ==> m' == m)
  {
    if m.Opened? {
      RefundRestoresOnce(fund0, token0, m.session, phase);
    }
  }

  /** Settling at the end: what it charges the fund and the token. */
  lemma FinalSettlement(fund0: int, token0: int, m: Money, phase: Phase, settle: Op)
    requires Sound(fund0, token0, m, phase) && !IsRefunded(m) && !IsSettled(m) && settle.OpSettle?
    ensures
      var m' := MoneyStep(m, On(settle));
      && !IsRefunded(m') && (m.Opened? <==> m'.Opened?)
      && (IsSettled(m') <==> m.Opened? && (settle.fundOk || settle.actual == m.session.preConsumed))
      && (IsSettled(m') ==> Fund(m') == fund0 - settle.actual)
      && (IsSettled(m') && (settle.tokenOk || Playground(m)) ==>
            Token(m') == token0 - (if Playground(m) then 0 else settle.actual))
  {
    StepIsSound(fund0, token0, m, phase, On(settle));
  }

  /** Operation `i` is the one that settles. */
  predicate SettlesAt(m: Money, ops: seq<MoneyOp>, i: nat) {
    && i < |ops| && ops[i].On? && ops[i].op.OpSettle?
    && !IsSettled(MoneyRun(m, ops[..i])) && IsSettled(MoneyRun(m, ops[..i + 1]))
  }

  /** What a money state has cost, if `settle` settled it. */
  ghost predicate CostIs(fund0: int, token0: int, m: Money, settle: Op)
    requires settle.OpSettle?
  {
    && Fund(m) == fund0 - settle.actual
    && (settle.tokenOk || Playground(m) ==> Token(m) == token0 - (if Playground(m) then 0 else settle.actual))
  }

  lemma SettledIsFinal(m: Money, op: MoneyOp)
    requires IsSettled(m)
    ensures MoneyStep(m, op) == m
  {
  }

  /** A settled run has cost exactly what the operation that settled it says. */
  lemma {:induction false} SettledCost(fund0: int, token0: int, m: Money, ops: seq<MoneyOp>) returns (i: nat)
    requires Sound(fund0, token0, m, Open) && AllOps(ops, IsNoRefund) && IsSettled(MoneyRun(m, ops))
    ensures SettlesAt(m, ops, i) && CostIs(fund0, token0, MoneyRun(m, ops), ops[i].op)
  {
    var init, last := ops[..|ops| - 1], ops[|ops| - 1];
    if IsSettled(MoneyRun(m, init)) {
      i := SettledCost(fund0, token0, m, init);
      SettledIsFinal(MoneyRun(m, init), last);
      assert ops[..i] == init[..i] && ops[..i + 1] == init[..i + 1] && ops[i] == init[i];
    } else {
      i := |init|;
      var phase := RunIsSound(fund0, token0, m, init);
      assert ops[..i + 1] == ops;
      FinalSettlement(fund0, token0, MoneyRun(m, init), phase, last.op);
    }
  }

  ghost predicate CostOf(fund0: int, token0: int, m: Money, ops: seq<MoneyOp>, i: nat) {
    SettlesAt(m, ops, i) && CostIs(fund0, token0, MoneyRun(m, ops), ops[i].op)
  }

  /** What a run without a refund costs: what the operation that settled it says or,
      unsettled, what is pre-charged. */
  ghost predicate Accounted(fund0: int, token0: int, m: Money, ops: seq<MoneyOp>) {
    var m' := MoneyRun(m, ops);
    if IsSettled(m') then exists i: nat :: CostOf(fund0, token0, m, ops, i)
    else
      var held := if m'.Opened? then m'.session.preConsumed else 0;
      Fund(m') == fund0 - held && Token(m') == token0 - (if Playground(m') then 0 else held)
  }

  lemma RunAccounted(fund0: int, token0: int, m: Money, ops: seq<MoneyOp>)
    requires Sound(fund0, token0, m, Open) && AllOps(ops, IsNoRefund)
    ensures Accounted(fund0, token0, m, ops)
  {
    if IsSettled(MoneyRun(m, ops)) {
      var i := SettledCost(fund0, token0, m, ops);
      assert CostOf(fund0, token0, m, ops, i);
    } else {
      var phase := RunIsSound(fund0, token0, m, ops);
    }
  }

  /** Only an attempt that succeeds settles. */
  ghost predicate SettlesOnSuccess(script: nat -> Turn) {
    forall k :: AllOps(script(k).prepared, IsNoSettlement) &&
                (script(k).result.Some? ==> AllOps(script(k).ops, IsNoSettlement))
  }

  lemma {:induction false} FailureNeverSettles(r: Routing, script: nat -> Turn, k: nat, c: Cursor, first: bool,
                                               failed: bool)
    requires !c.reset && SettlesOnSuccess(script) && Loop(r, script, k, c, first, failed).failed
    ensures AllOps(Loop(r, script, k, c, first, failed).ops, IsNoSettlement)
    decreases GroupsLeft(r, c), TriesLeft(r, c)
  {
    var turn := script(k);
    assert AllOps(turn.prepared, IsNoSettlement) && (turn.result.Some? ==> AllOps(turn.ops, IsNoSettlement));
    if c.retry <= r.retryTimes {
      var s := Chosen(r, turn, c, first);
      if s.found && Ready(turn) && turn.result.Some? &&
         Retries(turn.result.value, turn.affinitySkip, r.specificChannel, r.retryTimes - s.cursor.retry) {
        ChosenProgresses(r, turn, c, first);
        FailureNeverSettles(r, script, k + 1, Advance(s.cursor), false, true);
      }
    }
  }

  function ChargedMoney(money: Money, charge: Option<MoneyOp>): Money {
    if charge.Some? then MoneyStep(money, charge.value) else money
  }

  /** A failed synchronous request leaves both balances as they were, if only successful
      attempts settle and in any case if none settled; a successful one is never refunded; a
      pre-charge that fails takes nothing and causes neither an attempt nor a refund. */
  lemma RequestMoney(r: Routing, script: nat -> Turn, c: Cursor, money: Money, charge: Option<MoneyOp>)
    requires !c.reset && money.Unopened? && Disciplined(script)
    requires charge.Some? ==> charge.value.Charge?
    ensures
      var out := Request(r, script, c, money, charge);
      && (out.failed && (SettlesOnSuccess(script) || !IsSettled(out.money)) ==>
            !IsSettled(out.money) && Fund(out.money) == money.fund && Token(out.money) == money.token)
      && (IsRefunded(out.money) ==> out.failed && !IsSettled(out.money))
      && (charge.Some? && MoneyStep(money, charge.value).Unopened? ==> out == Relayed(money, 0, true, 0, 0))
      && out.refunds == (if out.failed && out.money.Opened? then 1 else 0)
  {
    var charged := ChargedMoney(money, charge);
    if charge.Some? {
      StepIsSound(money.fund, money.token, money, Open, charge.value);
    }
    var o := Loop(r, script, 0, c, true, false);
    LoopNeverRefunds(r, script, 0, c, true, false);
    var phase := RunIsSound(money.fund, money.token, charged, o.ops);
    FinalRefund(money.fund, money.token, MoneyRun(charged, o.ops), phase);
    if o.failed && SettlesOnSuccess(script) {
      FailureNeverSettles(r, script, 0, c, true, false);
      RunStaysUnsettled(charged, o.ops);
    }
  }

  /** A successful synchronous request costs what the operation that settled it says or,
      unsettled, what is pre-charged. */
  lemma RequestCost(r: Routing, script: nat -> Turn, c: Cursor, money: Money, charge: Option<MoneyOp>)
    requires !c.reset && money.Unopened? && Disciplined(script)
    requires charge.Some? ==> charge.value.Charge?
    ensures
      var out, ops := Request(r, script, c, money, charge), Loop(r, script, 0, c, true, false).ops;
      !out.failed ==>
        && out.money == MoneyRun(ChargedMoney(money, charge), ops)
        && Accounted(money.fund, money.token, ChargedMoney(money, charge), ops)
  {
    if charge.Some? {
      StepIsSound(money.fund, money.token, money, Open, charge.value);
    }
    LoopNeverRefunds(r, script, 0, c, true, false);
    RunAccounted(money.fund, money.token, ChargedMoney(money, charge), Loop(r, script, 0, c, true, false).ops);
  }

  /** A task is stored or, if it was ever charged, refunded, never both. If its attempts
      leave the settling to the end: a stored task whose settlement went through has cost
      exactly the settled quota, a failed one nothing. */
  lemma TaskMoney(r: Routing, script: nat -> Turn, c: Cursor, money: Money, settle: Op)
    requires !c.reset && money.Unopened? && Disciplined(script) && DefersSettling(script) && settle.OpSettle?
    ensures Task(r, script, c, money, settle).Some? <==> c.retry <= r.retryTimes
    ensures c.retry <= r.retryTimes ==>
      var out := Task(r, script, c, money, settle).value;
      && out.inserted == (if out.failed then 0 else 1)
      && out.refunds == (if out.failed && out.money.Opened? then 1 else 0)
      && (out.failed ==> Fund(out.money) == money.fund && Token(out.money) == money.token)
      && (!out.failed ==> !IsRefunded(out.money))
      && (IsSettled(out.money) ==> !out.failed && Fund(out.money) == money.fund - settle.actual)
      && (IsSettled(out.money) && (settle.tokenOk || money.playground) ==>
            Token(out.money) == money.token - (if money.playground then 0 else settle.actual))
      && (!out.failed && settle.fundOk && out.money.Opened? ==> IsSettled(out.money))
  {
    var o := Loop(r, script, 0, c, true, false);
    LoopNeverRefunds(r, script, 0, c, true, false);
    LoopOpsAllowed(r, script, 0, c, true, false, IsNoSettlement);
    var phase := RunIsSound(money.fund, money.token, money, o.ops);
    var after := MoneyRun(money, o.ops);
    RunStaysUnsettled(money, o.ops);
    RunKeepsPlayground(money, o.ops);
    if o.failed {
      FinalRefund(money.fund, money.token, after, phase);
    } else {
      FinalSettlement(money.fund, money.token, after, phase, settle);
    }
  }

  /** The setting must not be negative: otherwise the pre-charge is kept for a request that
      was never attempted. */
  lemma NegativeRetriesKeepThePrecharge(r: Routing, script: nat -> Turn, money: Money, quota: nat, group: nat)
    requires r.retryTimes < 0 && money.Unopened? && quota > 0
    ensures
      var out := Request(r, script, Cursor(0, false, group), money, Some(Charge(quota, false, true, true)));
      out.attempts == 0 && !out.failed && out.refunds == 0 && Fund(out.money) == money.fund - quota
  {
  }

  /** With a setting of zero or more, a request that was charged and not failed was attempted. */
  lemma SuccessWasAttempted(r: Routing, script: nat -> Turn, money: Money, charge: Option<MoneyOp>, group: nat)
    requires r.retryTimes >= 0 && money.Unopened?
    ensures
      var out := Request(r, script, Cursor(0, false, group), money, charge);
      !out.failed ==> exists j :: 0 <= j < out.attempts && script(j).result.None?
  {
    FailsIffNoAttemptSucceeded(r, script, 0, Cursor(0, false, group), true, false);
  }
}
