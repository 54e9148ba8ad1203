/** The billing session of one request: pre-charge, top-up, settlement and refund of the
    funding source (a wallet or a subscription) and of the token's own quota. Failing
    database operations are inputs; writes that undo an earlier write do not fail here. */
module Billing {

  datatype Funding = Wallet | Subscription

  datatype Session = Session(
    fund: int, token: int,              // the balances in the database
    funding: Funding, playground: bool,
    preConsumed: int,                   // quota pre-charged so far
    tokenConsumed: int,                 // part of it taken from the token
    consumed: int,                      // part of it the funding source remembers
    extraReserved: int,                 // top-ups
    trusted: bool, fundingSettled: bool, settled: bool, refunded: bool)

  datatype Result = Result(session: Session, ok: bool)

  function NewSession(fund: int, token: int, funding: Funding, playground: bool): Session {
    Session(fund, token, funding, playground, 0, 0, 0, 0, false, false, false, false)
  }

  /** What the database owes back to the funding source if the request fails. */
  function Held(s: Session): int {
    if s.funding.Wallet? then s.consumed else s.consumed + s.extraReserved
  }

  function TokenCharge(s: Session, quota: int): int {
    if s.playground then 0 else quota
  }

  predicate NeedsRefund(s: Session) {
    && !s.settled && !s.refunded && !s.fundingSettled
    && (s.tokenConsumed > 0 || (s.funding.Subscription? && s.consumed > 0))
  }

  function PreConsume(s: Session, quota: int, trust: bool, tokenOk: bool, fundOk: bool): Result {
    var trusted := trust && s.funding.Wallet?;
    var effective := if trusted then 0 else quota;
    if effective > 0 && !tokenOk && !s.playground then Result(s.(trusted := trusted), false)
    else if (effective > 0 || s.funding.Subscription?) && !fundOk
    then Result(s.(trusted := trusted, tokenConsumed := if s.playground then effective else 0), false)
    else Result(s.(trusted := trusted, fund := s.fund - effective, token := s.token - TokenCharge(s, effective),
                   preConsumed := effective, tokenConsumed := effective, consumed := effective), true)
  }

  function Reserve(s: Session, target: int, fundOk: bool, tokenOk: bool): Result {
    if s.settled || s.refunded || s.trusted || target <= s.preConsumed then Result(s, true)
    else if !fundOk || !(tokenOk || s.playground) then Result(s, false)
    else
      var delta := target - s.preConsumed;
      Result(s.(fund := s.fund - delta, token := s.token - TokenCharge(s, delta),
                consumed := if s.funding.Wallet? then s.consumed + delta else s.consumed,
                preConsumed := s.preConsumed + delta, tokenConsumed := s.tokenConsumed + delta,
                extraReserved := s.extraReserved + delta), true)
  }

  function Settle(s: Session, actual: int, fundOk: bool, tokenOk: bool): Result {
    var delta := actual - s.preConsumed;
    if s.settled then Result(s, true)
    else if delta == 0 then Result(s.(settled := true), true)
    else if !s.fundingSettled && !fundOk then Result(s, false)
    else
      var adjusts := tokenOk || s.playground;
      Result(s.(fund := if s.fundingSettled then s.fund else s.fund - delta,
                token := if adjusts then s.token - TokenCharge(s, delta) else s.token,
                fundingSettled := true, settled := true), adjusts)
  }

  function Refund(s: Session): Session {
    if !NeedsRefund(s) then s
    else s.(refunded := true, fund := s.fund + Held(s), token := s.token + TokenCharge(s, s.tokenConsumed))
  }

  class BillingSession {
    var fund: int
    var token: int
    const funding: Funding
    const playground: bool
    var preConsumed: int
    var tokenConsumed: int
    var consumed: int
    var extraReserved: int
    var trusted: bool
    var fundingSettled: bool
    var settled: bool
    var refunded: bool

    constructor (fund: int, token: int, funding: Funding, playground: bool)
      ensures Valid() && View() == NewSession(fund, token, funding, playground)
    {
      this.fund, this.token, this.funding, this.playground := fund, token, funding, playground;
      preConsumed, tokenConsumed, consumed, extraReserved := 0, 0, 0, 0;
      trusted, fundingSettled, settled, refunded := false, false, false, false;
    }

    function View(): Session
      reads this
    {
      Session(fund, token, funding, playground, preConsumed, tokenConsumed, consumed, extraReserved,
              trusted, fundingSettled, settled, refunded)
    }

    ghost predicate Valid()
      reads this
    {
      consumed >= 0 && tokenConsumed >= 0 && extraReserved >= 0
    }

    // A subscription is charged its own fixed amount, which is at least one.
    method PreConsumeQuota(quota: int, trust: bool, tokenOk: bool, fundOk: bool) returns (ok: bool)
      requires preConsumed == tokenConsumed == consumed == extraReserved == 0 && quota >= 0
      requires funding.Subscription? ==> quota >= 1
      modifies this
      ensures Valid()
      ensures Result(View(), ok) == PreConsume(old(View()), quota, trust, tokenOk, fundOk)
    {
      var effective := quota;
      if trust && funding.Wallet? {
        trusted := true;
        effective := 0;
      } else {
        trusted := false;
      }
      if effective > 0 {
        if !playground {
          if !tokenOk {
            return false;
          }
          token := token - effective;
        }
        tokenConsumed := effective;
      }
      if effective > 0 || funding.Subscription? {
        if !fundOk {
          if tokenConsumed > 0 && !playground {
            token := token + tokenConsumed;
            tokenConsumed := 0;
          }
          return false;
        }
        fund := fund - effective;
        consumed := effective;
      }
      preConsumed := effective;
      return true;
    }

    method ReserveQuota(target: int, fundOk: bool, tokenOk: bool) returns (ok: bool)
      requires Valid()
      modifies this
      ensures Valid()
      ensures Result(View(), ok) == Reserve(old(View()), target, fundOk, tokenOk)
    {
      if settled || refunded || trusted || target <= preConsumed {
        return true;
      }
      var delta := target - preConsumed;
      if !fundOk {
        return false;
      }
      fund := fund - delta;
      if funding.Wallet? {
        consumed := consumed + delta;
      }
      if !playground {
        if !tokenOk {
          fund := fund + delta;
          if funding.Wallet? {
            consumed := consumed - delta;
          }
          return false;
        }
        token := token - delta;
      }
      preConsumed := preConsumed + delta;
      tokenConsumed := tokenConsumed + delta;
      extraReserved := extraReserved + delta;
      return true;
    }

    method SettleQuota(actual: int, fundOk: bool, tokenOk: bool) returns (ok: bool)
      requires Valid()
      modifies this
      ensures Valid()
      ensures Result(View(), ok) == Settle(old(View()), actual, fundOk, tokenOk)
    {
      if settled {
        return true;
      }
      var delta := actual - preConsumed;
      if delta == 0 {
        settled := true;
        return true;
      }
      if !fundingSettled {
        if !fundOk {
          return false;
        }
        fund := fund - delta;
        fundingSettled := true;
      }
      ok := true;
      if !playground {
        if tokenOk {
          token := token - delta;
        } else {
          ok := false;
        }
      }
      settled := true;
    }

    method RefundQuota()
      requires Valid()
      modifies this
      ensures Valid()
      ensures View() == Refund(old(View()))
    {
      if settled || refunded || fundingSettled {
        return;
      }
      if !(tokenConsumed > 0 || (funding.Subscription? && consumed > 0)) {
        return;
      }
      refunded := true;
      fund := fund + consumed;
      if extraReserved > 0 && funding.Subscription? {
        fund := fund + extraReserved;
      }
      if tokenConsumed > 0 && !playground {
        token := token + tokenConsumed;
      }
    }
  }

  // ---- Conservation over whole sessions ----

  datatype Op =
    | OpReserve(target: int, fundOk: bool, tokenOk: bool)
    | OpSettle(actual: int, fundOk: bool, tokenOk: bool)
    | OpRefund

  /** How a session ended, with what it should have cost. */
  datatype Phase = Open | Settled(actual: int, tokenAdjusted: bool) | Refunded

  function Apply(s: Session, op: Op): Session {
    match op
    case OpReserve(target, fundOk, tokenOk) => Reserve(s, target, fundOk, tokenOk).session
    case OpSettle(actual, fundOk, tokenOk) => Settle(s, actual, fundOk, tokenOk).session
    case OpRefund => Refund(s)
  }

  function NextPhase(s: Session, phase: Phase, op: Op): Phase {
    if !phase.Open? then phase
    else if op.OpSettle? && Apply(s, op).settled then
      Settled(op.actual, Settle(s, op.actual, op.fundOk, op.tokenOk).ok)
    else if op.OpRefund? && Apply(s, op).refunded then Refunded
    else Open
  }

  function Run(s: Session, ops: seq<Op>): Session {
    if ops == [] then s else Apply(Run(s, ops[..|ops| - 1]), ops[|ops| - 1])
  }

  function RunPhase(s: Session, ops: seq<Op>): Phase {
    if ops == [] then Open
    else NextPhase(Run(s, ops[..|ops| - 1]), RunPhase(s, ops[..|ops| - 1]), ops[|ops| - 1])
  }

  /** The balances against the opening ones: an open session holds exactly what it
      pre-charged, a settled one has cost the actual quota, a refunded one nothing. */
  ghost predicate Balanced(fund0: int, token0: int, s: Session, phase: Phase) {
    && (s.settled <==> phase.Settled?)
    && (s.refunded <==> phase.Refunded?)
    && (s.fundingSettled ==> s.settled)
    && match phase
       case Open =>
         && Held(s) == s.preConsumed == s.tokenConsumed >= 0
         && s.extraReserved >= 0 && s.consumed >= 0
         && s.fund == fund0 - s.preConsumed
         && s.token == token0 - TokenCharge(s, s.preConsumed)
       case Settled(actual, tokenAdjusted) =>
         && s.fund == fund0 - actual
         && (tokenAdjusted ==> s.token == token0 - TokenCharge(s, actual))
       case Refunded =>
         s.fund == fund0 && s.token == token0
  }

  /** A pre-charge that fails takes nothing; its session is discarded. */
  lemma PreConsumeBalances(fund: int, token: int, funding: Funding, playground: bool,
                           quota: int, trust: bool, tokenOk: bool, fundOk: bool)
    requires quota >= 0
    ensures
      var r := PreConsume(NewSession(fund, token, funding, playground), quota, trust, tokenOk, fundOk);
      && (r.ok ==> Balanced(fund, token, r.session, Open))
      && (!r.ok ==> r.session.fund == fund && r.session.token == token)
      && (r.ok ==> r.session.preConsumed == if trust && funding.Wallet? then 0 else quota)
  {
  }

  /** A settlement that goes through on a session already refunded: it pays no heed to the
      refund flag. */
  predicate SettlesLate(s: Session, op: Op) {
    s.refunded && !s.settled && op.OpSettle? && (op.fundOk || op.actual == s.preConsumed)
  }

  /** Some operation of the run is such a settlement, judged by the session it finds. */
  ghost predicate LateSettlement(s: Session, ops: seq<Op>) {
    exists j: nat :: SettlesLateAt(s, ops, j)
  }

  predicate SettlesLateAt(s: Session, ops: seq<Op>, j: nat) {
    j < |ops| && SettlesLate(Run(s, ops[..j]), ops[j])
  }

  lemma OpKeepsBalance(fund0: int, token0: int, s: Session, phase: Phase, op: Op)
    requires Balanced(fund0, token0, s, phase) && !SettlesLate(s, op)
    ensures Balanced(fund0, token0, Apply(s, op), NextPhase(s, phase, op))
  {
  }

  /** What one operation does to being both settled and refunded. */
  lemma OpMakesBoth(s: Session, op: Op)
    requires s.fundingSettled ==> s.settled
    ensures Apply(s, op).fundingSettled ==> Apply(s, op).settled
    ensures Apply(s, op).settled && Apply(s, op).refunded <==> (s.settled && s.refunded) || SettlesLate(s, op)
  {
  }

  lemma LateAtSnoc(s: Session, init: seq<Op>, last: Op, j: nat)
    ensures SettlesLateAt(s, init + [last], j) <==>
            SettlesLateAt(s, init, j) || (j == |init| && SettlesLate(Run(s, init), last))
  {
    var ops := init + [last];
    if j < |init| {
      assert ops[..j] == init[..j] && ops[j] == init[j];
    } else if j == |init| {
      assert ops[..j] == init && ops[j] == last;
    }
  }

  lemma LateSnoc(s: Session, init: seq<Op>, last: Op)
    ensures LateSettlement(s, init + [last]) <==> LateSettlement(s, init) || SettlesLate(Run(s, init), last)
  {
    forall j: nat {
      LateAtSnoc(s, init, last, j);
    }
    LateAtSnoc(s, init, last, |init|);
  }

  /** A session ends both settled and refunded exactly when some settlement goes through on
      it after it was refunded. */
  lemma {:induction false} SettledAndRefundedIff(s: Session, ops: seq<Op>)
    requires !s.settled && !s.refunded && !s.fundingSettled
    ensures Run(s, ops).settled && Run(s, ops).refunded <==> LateSettlement(s, ops)
    ensures Run(s, ops).fundingSettled ==> Run(s, ops).settled
  {
    if ops != [] {
      var init, last := ops[..|ops| - 1], ops[|ops| - 1];
      SettledAndRefundedIff(s, init);
      OpMakesBoth(Run(s, init), last);
      assert ops == init + [last];
      LateSnoc(s, init, last);
    }
  }

  lemma {:induction false} TimelyRunConserves(fund0: int, token0: int, s: Session, ops: seq<Op>)
    requires Balanced(fund0, token0, s, Open) && !LateSettlement(s, ops)
    ensures Balanced(fund0, token0, Run(s, ops), RunPhase(s, ops))
  {
    if ops != [] {
      var init, last := ops[..|ops| - 1], ops[|ops| - 1];
      assert ops == init + [last];
      LateSnoc(s, init, last);
      TimelyRunConserves(fund0, token0, s, init);
      OpKeepsBalance(fund0, token0, Run(s, init), RunPhase(s, init), last);
    }
  }

  /** Over any sequence of top-ups, settlements and refunds, repeated and with any of them
      failing: money is conserved, settling and refunding exclude each other and whichever
      came first is final, exactly when no settlement goes through after a refund. */
  lemma SessionConservesMoney(fund0: int, token0: int, s: Session, ops: seq<Op>)
    requires Balanced(fund0, token0, s, Open)
    ensures Balanced(fund0, token0, Run(s, ops), RunPhase(s, ops)) <==> !LateSettlement(s, ops)
  {
    SettledAndRefundedIff(s, ops);
    if !LateSettlement(s, ops) {
      TimelyRunConserves(fund0, token0, s, ops);
    }
  }

  /** What it costs: a settlement after a refund charges the actual quota less the
      pre-charge that was already handed back. */
  lemma SettlingAfterRefundUndercharges(fund0: int, token0: int, s: Session, actual: int)
    requires Balanced(fund0, token0, s, Open) && NeedsRefund(s)
    ensures
      var late := Settle(Refund(s), actual, true, true).session;
      late.fund == fund0 - (actual - s.preConsumed) && s.preConsumed > 0 && late.settled && late.refunded
  {
  }

  /** A refund of an unsettled session restores both balances; a second one does nothing. */
  lemma RefundRestoresOnce(fund0: int, token0: int, s: Session, phase: Phase)
    requires Balanced(fund0, token0, s, phase)
    ensures !s.settled ==> Refund(s).fund == fund0 && Refund(s).token == token0
    ensures s.settled ==> Refund(s) == s
    ensures Refund(Refund(s)) == Refund(s)
  {
  }
}
