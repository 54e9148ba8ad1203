/** The outcome of testing one channel, and the law that every outcome obeys. */
module HealthCheck {

  datatype Summary = Summary(tested: int, succeeded: int, failed: int, disabled: int, enabled: int)

  const ZERO := Summary(0, 0, 0, 0, 0)

  function Add(a: Summary, b: Summary): Summary {
    Summary(a.tested + b.tested, a.succeeded + b.succeeded, a.failed + b.failed,
            a.disabled + b.disabled, a.enabled + b.enabled)
  }

  /** What a summary of at most `n` channel tests always satisfies. */
  predicate Lawful(s: Summary, n: nat) {
    && 0 <= s.tested <= n
    && s.tested == s.succeeded + s.failed
    && 0 <= s.disabled <= s.failed
    && 0 <= s.enabled <= s.succeeded
    && s.disabled + s.enabled <= s.tested
  }

  datatype ChannelStatus = Unknown | Enabled | ManuallyDisabled | AutoDisabled

  datatype Policy = Policy(allowDisable: bool, automaticDisable: bool, automaticEnable: bool, threshold: int)

  /** What `testChannel` reports: a local error, an upstream error, and whether that
      upstream error is one that disables channels (asked only when there is one). */
  datatype TestResult = TestResult(localError: bool, apiError: bool, disablingError: bool)

  method TestChannelForHealthCheck(status: ChannelStatus, autoBan: bool, policy: Policy,
                                   result: TestResult, milliseconds: int, cancelled: bool)
    returns (summary: Summary)
    ensures Lawful(summary, 1)
    ensures cancelled ==> summary == ZERO
    ensures !cancelled ==>
      var slow := policy.automaticDisable && milliseconds > policy.threshold;
      var failed := result.apiError || slow;
      var banned := policy.automaticDisable && (slow || (result.apiError && result.disablingError));
      && summary.tested == 1
      && (summary.failed == 1 <==> failed)
      && (summary.disabled == 1 <==> banned && policy.allowDisable && autoBan && status == Enabled)
      && (summary.enabled == 1 <==>
          !failed && !result.localError && policy.automaticEnable && status == AutoDisabled)
  {
    summary := ZERO;
    if cancelled {
      return;
    }
    summary := summary.(tested := summary.tested + 1);

    var shouldBan := false;
    var apiError := result.apiError;
    if apiError {
      shouldBan := policy.automaticDisable && result.disablingError;
    }
    if policy.automaticDisable && !shouldBan {
      if milliseconds > policy.threshold {
        apiError := true;
        shouldBan := true;
      }
    }

    if !apiError {
      summary := summary.(succeeded := summary.succeeded + 1);
    } else {
      summary := summary.(failed := summary.failed + 1);
    }
    if policy.allowDisable && status == Enabled && shouldBan && autoBan {
      summary := summary.(disabled := summary.disabled + 1);
    }
    if !result.localError && status != Enabled &&
       policy.automaticEnable && !apiError && status == AutoDisabled {
      summary := summary.(enabled := summary.enabled + 1);
    }
  }
}
