/** The in-memory sliding-window rate limiter and its background cleaner.

    The limiter keeps, per key, a bounded queue of the acceptance times that may still
    matter. The specification keeps the full history of acceptances and counts the recent
    ones. The main results: both make the same decision on every run, wherever the cleaner
    runs, and the cleaner stays invisible exactly while no window outlasts the expiration. */
module RateLimiter {

  type Store = map<string, seq<int>>

  datatype Limit = Limit(max: int, duration: int)

  datatype Event = Request(key: string, now: int) | Clean(now: int)

  /** Decisions are recorded for requests only. */
  datatype Outcome = Outcome(store: Store, decisions: seq<bool>)

  ghost predicate NoEmptyQueue(store: Store) {
    forall key :: key in store ==> store[key] != []
  }

  predicate Accepts(store: Store, key: string, limit: Limit, now: int)
    requires key in store ==> store[key] != []
  {
    key !in store || |store[key]| < limit.max || now - store[key][0] >= limit.duration
  }

  function AfterRequest(store: Store, key: string, limit: Limit, now: int): Store
    requires key in store ==> store[key] != []
  {
    if key !in store then store[key := [now]]
    else if |store[key]| < limit.max then store[key := store[key] + [now]]
    else if now - store[key][0] >= limit.duration then store[key := store[key][1..] + [now]]
    else store
  }

  predicate Expired(queue: seq<int>, expiration: int, now: int) {
    |queue| == 0 || now - queue[|queue| - 1] > expiration
  }

  function AfterClean(store: Store, expiration: int, now: int): Store {
    map key | key in store && !Expired(store[key], expiration, now) :: store[key]
  }

  class InMemoryRateLimiter {
    var store: Store
    const expiration: int

    ghost predicate Valid()
      reads this
    {
      NoEmptyQueue(store)
    }

    constructor (expiration: int)
      ensures Valid() && store == map[] && this.expiration == expiration
    {
      this.store := map[];
      this.expiration := expiration;
    }

    // The source allocates the queue with capacity `max`, which a negative value forbids.
    method Request(key: string, max: int, duration: int, now: int) returns (accepted: bool)
      requires Valid() && max >= 0
      modifies this
      ensures Valid()
      ensures accepted == Accepts(old(store), key, Limit(max, duration), now)
      ensures store == AfterRequest(old(store), key, Limit(max, duration), now)
    {
      if key in store {
        var queue := store[key];
        if |queue| < max {
          store := store[key := queue + [now]];
          return true;
        } else if now - queue[0] >= duration {
          queue := queue[1..];
          store := store[key := queue + [now]];
          return true;
        } else {
          return false;
        }
      }
      store := store[key := [now]];
      return true;
    }

    method ClearExpiredItems(now: int)
      requires Valid()
      modifies this
      ensures Valid()
      ensures store == AfterClean(old(store), expiration, now)
    {
      var keys := store.Keys;
      while keys != {}
        invariant keys <= old(store).Keys
        invariant forall key :: key in store <==>
          key in old(store) && (key in keys || !Expired(old(store)[key], expiration, now))
        invariant forall key :: key in store ==> store[key] == old(store)[key]
        decreases keys
      {
        var key :| key in keys;
        keys := keys - {key};
        var queue := store[key];
        if |queue| == 0 || now - queue[|queue| - 1] > expiration {
          store := store - {key};
        }
      }
    }
  }

  // ---- Runs of the limiter, and the full-history specification ----

  function Step(before: Outcome, event: Event, limits: string -> Limit, expiration: int): (o: Outcome)
    requires NoEmptyQueue(before.store)
    ensures NoEmptyQueue(o.store)
  {
    match event
    case Request(key, now) =>
      Outcome(AfterRequest(before.store, key, limits(key), now),
              before.decisions + [Accepts(before.store, key, limits(key), now)])
    case Clean(now) =>
      Outcome(AfterClean(before.store, expiration, now), before.decisions)
  }

  function Run(events: seq<Event>, limits: string -> Limit, expiration: int): (o: Outcome)
    ensures NoEmptyQueue(o.store)
  {
    if events == [] then Outcome(map[], [])
    else Step(Run(events[..|events| - 1], limits, expiration), events[|events| - 1], limits, expiration)
  }

  /** How many of `times` lie less than `duration` before `now`. */
  function Recent(times: seq<int>, now: int, duration: int): (n: nat)
    ensures n <= |times|
  {
    if times == [] then 0
    else Recent(times[..|times| - 1], now, duration) + (if now - times[|times| - 1] < duration then 1 else 0)
  }

  function Past(history: Store, key: string): seq<int> {
    if key in history then history[key] else []
  }

  /** The history of accepted times after one more decision about `key`. */
  function Recorded(history: Store, key: string, accepted: bool, now: int): Store {
    if accepted then history[key := Past(history, key) + [now]] else history
  }

  function SpecStep(before: Outcome, event: Event, limits: string -> Limit): Outcome {
    match event
    case Clean(_) => before
    case Request(key, now) =>
      var accepted := Recent(Past(before.store, key), now, limits(key).duration) < limits(key).max;
      Outcome(Recorded(before.store, key, accepted, now), before.decisions + [accepted])
  }

  /** Accept exactly when fewer than `max` acceptances happened in the last `duration`;
      the cleaner does not exist. */
  function Spec(events: seq<Event>, limits: string -> Limit): Outcome {
    if events == [] then Outcome(map[], [])
    else SpecStep(Spec(events[..|events| - 1], limits), events[|events| - 1], limits)
  }

  ghost predicate Ordered(events: seq<Event>) {
    forall i, j :: 0 <= i < j < |events| ==> events[i].now <= events[j].now
  }

  ghost predicate Sorted(times: seq<int>) {
    forall i, j :: 0 <= i < j < |times| ==> times[i] <= times[j]
  }

  ghost predicate Positive(limits: string -> Limit) {
    forall key :: limits(key).max >= 1
  }

  ghost predicate CoveredByExpiration(limits: string -> Limit, expiration: int) {
    forall key :: limits(key).duration <= expiration + 1
  }

  /** The simulation: the queue is a suffix of the history, and whatever the limiter has
      forgotten had already left the window at time `clock`. */
  ghost predicate Simulates(queue: seq<int>, past: seq<int>, limit: Limit, clock: int) {
    && |queue| <= |past|
    && |queue| <= limit.max
    && queue == past[|past| - |queue|..]
    && Sorted(past)
    && (forall i :: 0 <= i < |past| ==> past[i] <= clock)
    && (forall i :: 0 <= i < |past| - |queue| ==> clock - past[i] >= limit.duration)
  }

  ghost predicate AllSimulate(store: Store, history: Store, limits: string -> Limit, clock: int) {
    forall key :: Simulates(Past(store, key), Past(history, key), limits(key), clock)
  }

  lemma {:induction false} RecentOfSorted(times: seq<int>, cut: nat, now: int, duration: int)
    requires Sorted(times) && cut <= |times|
    requires forall i :: 0 <= i < cut ==> now - times[i] >= duration
    requires forall i :: cut <= i < |times| ==> now - times[i] < duration
    ensures Recent(times, now, duration) == |times| - cut
  {
    if times != [] {
      var init := times[..|times| - 1];
      RecentOfSorted(init, if cut <= |init| then cut else |init|, now, duration);
    }
  }

  /** A recent time is recent together with everything after it. */
  lemma {:induction false} RecentAtMost(times: seq<int>, cut: nat, now: int, duration: int)
    requires cut <= |times|
    requires forall i :: 0 <= i < cut ==> now - times[i] >= duration
    ensures Recent(times, now, duration) <= |times| - cut
  {
    if times != [] {
      var init := times[..|times| - 1];
      RecentAtMost(init, if cut <= |init| then cut else |init|, now, duration);
    }
  }

  /** A full queue whose oldest entry is still in the window means a full window, and
      nothing else does. */
  lemma QueueDecides(queue: seq<int>, past: seq<int>, limit: Limit, clock: int, now: int)
    requires limit.max >= 1 && clock <= now && Simulates(queue, past, limit, clock)
    ensures Recent(past, now, limit.duration) < limit.max <==>
            |queue| < limit.max || now - queue[0] >= limit.duration
  {
    var cut := |past| - |queue|;
    RecentAtMost(past, cut, now, limit.duration);
    if |queue| == limit.max {
      assert queue[0] == past[cut];
      if now - queue[0] >= limit.duration {
        RecentAtMost(past, cut + 1, now, limit.duration);
      } else {
        RecentOfSorted(past, cut, now, limit.duration);
      }
    }
  }

  lemma QueueAppends(queue: seq<int>, past: seq<int>, limit: Limit, clock: int, now: int)
    requires clock <= now && Simulates(queue, past, limit, clock) && |queue| < limit.max
    ensures Simulates(queue + [now], past + [now], limit, now)
  {
  }

  lemma QueueShifts(queue: seq<int>, past: seq<int>, limit: Limit, clock: int, now: int)
    requires clock <= now && Simulates(queue, past, limit, clock) && |queue| == limit.max >= 1
    requires now - queue[0] >= limit.duration
    ensures Simulates(queue[1..] + [now], past + [now], limit, now)
  {
    assert queue[0] == past[|past| - |queue|];
  }

  lemma QueueWaits(queue: seq<int>, past: seq<int>, limit: Limit, clock: int, now: int)
    requires clock <= now && Simulates(queue, past, limit, clock)
    ensures Simulates(queue, past, limit, now)
  {
  }

  lemma QueueAccepts(queue: seq<int>, past: seq<int>, limit: Limit, clock: int, now: int)
    requires limit.max >= 1 && clock <= now && Simulates(queue, past, limit, clock)
    ensures |queue| < limit.max ==> Simulates(queue + [now], past + [now], limit, now)
    ensures |queue| == limit.max && now - queue[0] >= limit.duration ==>
              Simulates(queue[1..] + [now], past + [now], limit, now)
    ensures Simulates(queue, past, limit, now)
  {
    QueueWaits(queue, past, limit, clock, now);
    if |queue| < limit.max {
      QueueAppends(queue, past, limit, clock, now);
    } else if now - queue[0] >= limit.duration {
      QueueShifts(queue, past, limit, clock, now);
    }
  }

  /** One request: the bounded queue and the full history decide alike and stay related. */
  lemma RequestSimulates(store: Store, history: Store, key: string, limit: Limit, clock: int, now: int)
    requires NoEmptyQueue(store) && limit.max >= 1 && clock <= now
    requires Simulates(Past(store, key), Past(history, key), limit, clock)
    ensures Accepts(store, key, limit, now) <==> Recent(Past(history, key), now, limit.duration) < limit.max
    ensures Simulates(Past(AfterRequest(store, key, limit, now), key),
                      Past(Recorded(history, key, Accepts(store, key, limit, now), now), key), limit, now)
  {
    QueueDecides(Past(store, key), Past(history, key), limit, clock, now);
    QueueAccepts(Past(store, key), Past(history, key), limit, clock, now);
    assert [] + [now] == [now];
  }

  /** Forgetting a queue whose last entry has expired. */
  lemma QueueExpires(queue: seq<int>, past: seq<int>, limit: Limit, expiration: int, clock: int, now: int)
    requires clock <= now && limit.max >= 0 && limit.duration <= expiration + 1
    requires Simulates(queue, past, limit, clock) && queue != [] && Expired(queue, expiration, now)
    ensures Simulates([], past, limit, now)
  {
    assert past[|past| - 1] == queue[|queue| - 1];
  }

  lemma CleanSimulates(store: Store, history: Store, limits: string -> Limit, expiration: int, clock: int, now: int)
    requires NoEmptyQueue(store) && clock <= now
    requires CoveredByExpiration(limits, expiration) && Positive(limits)
    requires AllSimulate(store, history, limits, clock)
    ensures AllSimulate(AfterClean(store, expiration, now), history, limits, now)
  {
    forall key
      ensures Simulates(Past(AfterClean(store, expiration, now), key), Past(history, key), limits(key), now)
    {
      var queue, past, limit := Past(store, key), Past(history, key), limits(key);
      if key in store && Expired(store[key], expiration, now) {
        QueueExpires(queue, past, limit, expiration, clock, now);
      } else {
        QueueWaits(queue, past, limit, clock, now);
      }
    }
  }

  lemma OtherKeysUntouched(store: Store, history: Store, key: string, k: string, limit: Limit, accepted: bool,
                           now: int)
    requires NoEmptyQueue(store) && k != key
    ensures Past(AfterRequest(store, key, limit, now), k) == Past(store, k)
    ensures Past(Recorded(history, key, accepted, now), k) == Past(history, k)
  {
  }

  lemma AllRequestSimulate(store: Store, history: Store, limits: string -> Limit, key: string, clock: int, now: int)
    requires NoEmptyQueue(store) && Positive(limits) && clock <= now
    requires AllSimulate(store, history, limits, clock)
    ensures
      var accepted := Recent(Past(history, key), now, limits(key).duration) < limits(key).max;
      && Accepts(store, key, limits(key), now) == accepted
      && AllSimulate(AfterRequest(store, key, limits(key), now), Recorded(history, key, accepted, now), limits, now)
  {
    RequestSimulates(store, history, key, limits(key), clock, now);
    var accepted := Accepts(store, key, limits(key), now);
    var store', history' := AfterRequest(store, key, limits(key), now), Recorded(history, key, accepted, now);
    forall k
      ensures Simulates(Past(store', k), Past(history', k), limits(k), now)
    {
      if k != key {
        QueueAccepts(Past(store, k), Past(history, k), limits(k), clock, now);
        OtherKeysUntouched(store, history, key, k, limits(key), accepted, now);
      }
    }
  }

  ghost function Clock(events: seq<Event>, start: int): int {
    if events == [] then start else events[|events| - 1].now
  }

  lemma StepSimulates(before: Outcome, spec: Outcome, event: Event, limits: string -> Limit, expiration: int,
                      clock: int)
    requires NoEmptyQueue(before.store) && before.decisions == spec.decisions && clock <= event.now
    requires Positive(limits) && CoveredByExpiration(limits, expiration)
    requires AllSimulate(before.store, spec.store, limits, clock)
    ensures Step(before, event, limits, expiration).decisions == SpecStep(spec, event, limits).decisions
    ensures AllSimulate(Step(before, event, limits, expiration).store, SpecStep(spec, event, limits).store, limits,
                        event.now)
  {
    match event
    case Clean(now) =>
      CleanSimulates(before.store, spec.store, limits, expiration, clock, now);
    case Request(key, now) =>
      AllRequestSimulate(before.store, spec.store, limits, key, clock, now);
  }

  lemma {:induction false} RunSimulates(events: seq<Event>, limits: string -> Limit, expiration: int, start: int)
    requires Ordered(events) && Positive(limits) && CoveredByExpiration(limits, expiration)
    requires events != [] ==> start <= events[0].now
    ensures Run(events, limits, expiration).decisions == Spec(events, limits).decisions
    ensures AllSimulate(Run(events, limits, expiration).store, Spec(events, limits).store, limits, Clock(events, start))
  {
    if events != [] {
      var init, last := events[..|events| - 1], events[|events| - 1];
      RunSimulates(init, limits, expiration, start);
      assert Clock(init, start) <= last.now;
      StepSimulates(Run(init, limits, expiration), Spec(init, limits), last, limits, expiration, Clock(init, start));
    }
  }

  /** On every run with a clock that never goes back, and wherever the cleaner runs, a
      request is accepted exactly when fewer than `max` were accepted in the last `duration`. */
  lemma DecisionsMatchSpec(events: seq<Event>, limits: string -> Limit, expiration: int)
    requires Ordered(events) && Positive(limits) && CoveredByExpiration(limits, expiration)
    ensures Run(events, limits, expiration).decisions == Spec(events, limits).decisions
  {
    RunSimulates(events, limits, expiration, if events == [] then 0 else events[0].now);
  }

  // ---- No window of length `duration` ever holds more than `max` acceptances ----

  function InWindow(times: seq<int>, from: int, duration: int): (n: nat) {
    if times == [] then 0
    else InWindow(times[..|times| - 1], from, duration) +
         (if from <= times[|times| - 1] < from + duration then 1 else 0)
  }

  lemma {:induction false} WindowIsRecent(times: seq<int>, from: int, duration: int, now: int)
    requires from <= now < from + duration
    ensures InWindow(times, from, duration) <= Recent(times, now, duration)
  {
    if times != [] {
      WindowIsRecent(times[..|times| - 1], from, duration, now);
    }
  }

  lemma {:induction false} AtMostMaxInEveryWindow(events: seq<Event>, limits: string -> Limit, key: string, from: int)
    requires Positive(limits)
    ensures InWindow(Past(Spec(events, limits).store, key), from, limits(key).duration) <= limits(key).max
  {
    if events != [] {
      var init, last := events[..|events| - 1], events[|events| - 1];
      AtMostMaxInEveryWindow(init, limits, key, from);
      assert limits(key).max >= 1;
      if last.Request? && last.key == key {
        var past := Past(Spec(init, limits).store, key);
        assert (past + [last.now])[..|past|] == past;
        if from <= last.now < from + limits(key).duration {
          WindowIsRecent(past, from, limits(key).duration, last.now);
        }
      }
    }
  }

  /** The times at which the limiter accepted a request for `key`. */
  function AcceptedAt(events: seq<Event>, limits: string -> Limit, expiration: int, key: string): seq<int> {
    if events == [] then []
    else
      var init, last := events[..|events| - 1], events[|events| - 1];
      AcceptedAt(init, limits, expiration, key) +
      (if last.Request? && last.key == key && Accepts(Run(init, limits, expiration).store, key, limits(key), last.now)
       then [last.now] else [])
  }

  lemma DecidesLikeSpec(events: seq<Event>, limits: string -> Limit, expiration: int, key: string, now: int)
    requires Ordered(events) && Positive(limits) && CoveredByExpiration(limits, expiration)
    requires events != [] ==> events[|events| - 1].now <= now
    ensures Accepts(Run(events, limits, expiration).store, key, limits(key), now)
            == (Recent(Past(Spec(events, limits).store, key), now, limits(key).duration) < limits(key).max)
  {
    var start := if events == [] then now else events[0].now;
    RunSimulates(events, limits, expiration, start);
    var store, history := Run(events, limits, expiration).store, Spec(events, limits).store;
    assert Simulates(Past(store, key), Past(history, key), limits(key), Clock(events, start));
    assert limits(key).max >= 1;
    RequestSimulates(store, history, key, limits(key), Clock(events, start), now);
  }

  lemma {:induction false} AcceptedIsHistory(events: seq<Event>, limits: string -> Limit, expiration: int, key: string)
    requires Ordered(events) && Positive(limits) && CoveredByExpiration(limits, expiration)
    ensures AcceptedAt(events, limits, expiration, key) == Past(Spec(events, limits).store, key)
  {
    if events != [] {
      var init, last := events[..|events| - 1], events[|events| - 1];
      AcceptedIsHistory(init, limits, expiration, key);
      if last.Request? {
        DecidesLikeSpec(init, limits, expiration, last.key, last.now);
      }
    }
  }

  /** Every half-open window of length `duration` holds at most `max` acceptances. */
  lemma NoWindowOverflows(events: seq<Event>, limits: string -> Limit, expiration: int, key: string, from: int)
    requires Ordered(events) && Positive(limits) && CoveredByExpiration(limits, expiration)
    ensures InWindow(AcceptedAt(events, limits, expiration, key), from, limits(key).duration) <= limits(key).max
  {
    AcceptedIsHistory(events, limits, expiration, key);
    AtMostMaxInEveryWindow(events, limits, key, from);
  }

  // ---- When the cleaner is invisible ----

  function WithoutCleaning(events: seq<Event>): seq<Event> {
    if events == [] then []
    else
      var init := WithoutCleaning(events[..|events| - 1]);
      if events[|events| - 1].Clean? then init else init + [events[|events| - 1]]
  }

  lemma {:induction false} SpecIgnoresCleaning(events: seq<Event>, limits: string -> Limit)
    ensures Spec(WithoutCleaning(events), limits) == Spec(events, limits)
  {
    if events != [] {
      var init := events[..|events| - 1];
      SpecIgnoresCleaning(init, limits);
      if !events[|events| - 1].Clean? {
        assert WithoutCleaning(events)[..|WithoutCleaning(events)| - 1] == WithoutCleaning(init);
      }
    }
  }

  lemma {:induction false} WithoutCleaningOrdered(events: seq<Event>)
    requires Ordered(events)
    ensures Ordered(WithoutCleaning(events))
    ensures forall e :: e in WithoutCleaning(events) ==> e in events
  {
    if events != [] {
      var init := events[..|events| - 1];
      WithoutCleaningOrdered(init);
      forall e | e in WithoutCleaning(init)
        ensures e.now <= events[|events| - 1].now
      {
        assert e in init;
      }
    }
  }

  ghost predicate CleanerInvisible(events: seq<Event>, limits: string -> Limit, expiration: int) {
    Run(events, limits, expiration).decisions == Run(WithoutCleaning(events), limits, expiration).decisions
  }

  lemma RunSnoc(events: seq<Event>, last: Event, limits: string -> Limit, expiration: int)
    ensures Run(events + [last], limits, expiration) == Step(Run(events, limits, expiration), last, limits, expiration)
    ensures WithoutCleaning(events + [last]) == WithoutCleaning(events) + (if last.Clean? then [] else [last])
  {
    assert (events + [last])[..|events|] == events;
  }

  /** `n` requests for `key` at time 0. */
  function Burst(key: string, n: nat): seq<Event> {
    seq(n, _ => Request(key, 0))
  }

  function Zeros(n: nat): seq<int> {
    seq(n, _ => 0)
  }

  /** The store after `n` requests for `key` at time 0 and none for any other key. */
  function Filled(key: string, n: nat): Store {
    if n == 0 then map[] else map[key := Zeros(n)]
  }

  lemma BurstNext(key: string, n: nat)
    ensures Burst(key, n + 1) == Burst(key, n) + [Request(key, 0)]
    ensures Zeros(n + 1) == Zeros(n) + [0] && Zeros(0) == []
  {
  }

  lemma FilledNext(key: string, n: nat, limit: Limit)
    requires n < limit.max
    ensures NoEmptyQueue(Filled(key, n))
    ensures AfterRequest(Filled(key, n), key, limit, 0) == Filled(key, n + 1)
  {
    BurstNext(key, n);
    if n == 0 {
      assert Zeros(0) + [0] == [0];
      assert Filled(key, 0)[key := [0]] == map[key := [0]];
    } else {
      assert Filled(key, n)[key := Zeros(n) + [0]] == map[key := Zeros(n + 1)];
    }
  }

  lemma {:induction false} BurstFillsQueue(key: string, n: nat, limits: string -> Limit, expiration: int)
    requires n <= limits(key).max
    ensures Run(Burst(key, n), limits, expiration).store == Filled(key, n)
    ensures WithoutCleaning(Burst(key, n)) == Burst(key, n)
  {
    if n == 0 {
      assert Burst(key, 0) == [];
    } else {
      var burst := Burst(key, n - 1);
      BurstFillsQueue(key, n - 1, limits, expiration);
      assert Burst(key, n) == burst + [Request(key, 0)] by { BurstNext(key, n - 1); }
      RunSnoc(burst, Request(key, 0), limits, expiration);
      FilledNext(key, n - 1, limits(key));
    }
  }

  lemma CleanerEmpties(key: string, n: nat, expiration: int)
    requires expiration >= 0
    ensures AfterClean(Filled(key, n), expiration, expiration + 1) == map[]
  {
  }

  lemma LateIsOrdered(key: string, n: nat, late: nat)
    ensures Ordered(Burst(key, n) + [Clean(late)] + [Request(key, late)])
  {
    var events := Burst(key, n) + [Clean(late)] + [Request(key, late)];
    assert forall i :: 0 <= i < |events| ==> events[i].now == if i < n then 0 else late;
  }

  /** A window that outlasts the expiration lets the cleaner forget a full queue. */
  lemma CleanerForgetsTooEarly(key: string, limits: string -> Limit, expiration: int) returns (events: seq<Event>)
    requires limits(key).max >= 1 && expiration >= 0 && limits(key).duration > expiration + 1
    ensures Ordered(events) && !CleanerInvisible(events, limits, expiration)
  {
    var late, n := expiration + 1, limits(key).max;
    var burst, clean, again := Burst(key, n), Clean(late), Request(key, late);
    events := burst + [clean] + [again];
    LateIsOrdered(key, n, late);
    BurstFillsQueue(key, n, limits, expiration);
    CleanerEmpties(key, n, expiration);
    var full := Run(burst, limits, expiration).decisions;
    RunSnoc(burst, clean, limits, expiration);
    RunSnoc(burst + [clean], again, limits, expiration);
    RunSnoc(burst, again, limits, expiration);
    assert WithoutCleaning(burst + [clean]) == burst;
    assert Run(events, limits, expiration).decisions[|full|];
    assert !Run(burst + [again], limits, expiration).decisions[|full|];
  }

  /** Inserting cleaner steps anywhere changes no decision, exactly when no window lasts
      longer than the expiration plus the one second that the whole-second test grants. */
  lemma CleanerInvisibleIff(limits: string -> Limit, expiration: int)
    requires Positive(limits) && expiration >= 0
    ensures (forall events :: Ordered(events) ==> CleanerInvisible(events, limits, expiration))
            <==> CoveredByExpiration(limits, expiration)
  {
    if CoveredByExpiration(limits, expiration) {
      forall events | Ordered(events)
        ensures CleanerInvisible(events, limits, expiration)
      {
        WithoutCleaningOrdered(events);
        DecisionsMatchSpec(events, limits, expiration);
        DecisionsMatchSpec(WithoutCleaning(events), limits, expiration);
        SpecIgnoresCleaning(events, limits);
      }
    } else {
      var key :| limits(key).duration > expiration + 1;
      assert limits(key).max >= 1;
      var events := CleanerForgetsTooEarly(key, limits, expiration);
    }
  }

  /** The limit has to be positive: with `max` 0 the first request of a key still passes. */
  lemma ZeroLimitStillAccepts(limits: string -> Limit, expiration: int, key: string, now: int)
    requires limits(key).max == 0
    ensures Run([Request(key, now)], limits, expiration).decisions == [true]
    ensures Spec([Request(key, now)], limits).decisions == [false]
  {
    assert [Request(key, now)][..0] == [];
  }

  ghost predicate DecidesAsSpecified(events: seq<Event>, limits: string -> Limit, expiration: int) {
    Run(events, limits, expiration).decisions == Spec(events, limits).decisions
  }

  /** Some ordered run is decided otherwise than specified, if a limit is zero or a window
      outlasts the expiration by more than the one second granted. */
  lemma DecidesOtherwise(limits: string -> Limit, expiration: int) returns (events: seq<Event>)
    requires (forall key :: limits(key).max >= 0) && expiration >= 0
    requires !(Positive(limits) && CoveredByExpiration(limits, expiration))
    ensures Ordered(events) && !DecidesAsSpecified(events, limits, expiration)
  {
    if key :| limits(key).max < 1 {
      events := [Request(key, 0)];
      ZeroLimitStillAccepts(limits, expiration, key, 0);
      assert [true][0] != [false][0];
    } else {
      var key :| limits(key).duration > expiration + 1;
      assert limits(key).max >= 1;
      events := CleanerForgetsTooEarly(key, limits, expiration);
      WithoutCleaningOrdered(events);
      SpecIgnoresCleaning(events, limits);
      if DecidesAsSpecified(events, limits, expiration) {
        events := WithoutCleaning(events);
      }
    }
  }

  /** Every ordered run is decided as specified, exactly when all limits are positive and no
      window outlasts the expiration by more than one second. */
  lemma DecisionsMatchIff(limits: string -> Limit, expiration: int)
    requires (forall key :: limits(key).max >= 0) && expiration >= 0
    ensures (forall events :: Ordered(events) ==> DecidesAsSpecified(events, limits, expiration))
            <==> Positive(limits) && CoveredByExpiration(limits, expiration)
  {
    if Positive(limits) && CoveredByExpiration(limits, expiration) {
      forall events | Ordered(events)
        ensures DecidesAsSpecified(events, limits, expiration)
      {
        DecisionsMatchSpec(events, limits, expiration);
      }
    } else {
      var events := DecidesOtherwise(limits, expiration);
    }
  }
}
